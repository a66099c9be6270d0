/**
 * Document identifiers: the store's native twelve-byte identifier, its
 * twenty-four-digit text form used at the API boundary, and the partial
 * conversion from text that every repository applies to the ids it is given.
 */
module ObjectIds {
  import opened Results

  type Byte = x: int | 0 <= x < 256

  /** A store-native identifier: twelve bytes. */
  type ObjectId = b: seq<Byte> | |b| == 12 witness [0, 0, 0, 0, 0, 0, 0, 0, 0, 0, 0, 0]

  predicate IsHexDigit(c: char) {
    '0' <= c <= '9' || 'a' <= c <= 'f' || 'A' <= c <= 'F'
  }

  predicate IsLowerHexDigit(c: char) {
    '0' <= c <= '9' || 'a' <= c <= 'f'
  }

  function HexValue(c: char): (v: nat)
    requires IsHexDigit(c)
    ensures v < 16
  {
    if '0' <= c <= '9' then c as int - '0' as int
    else if 'a' <= c <= 'f' then c as int - 'a' as int + 10
    else c as int - 'A' as int + 10
  }

  function HexDigit(v: nat): (c: char)
    requires v < 16
    ensures IsLowerHexDigit(c) && HexValue(c) == v
  {
    if v < 10 then ('0' as int + v) as char else ('a' as int + v - 10) as char
  }

  /** `str(id)`: two lower-case hex digits per byte, high nibble first. */
  function ToString(id: ObjectId): (s: string)
    ensures |s| == 24
    ensures forall i | 0 <= i < 24 :: IsLowerHexDigit(s[i])
  {
    seq(24, i requires 0 <= i < 24 => HexDigit(if i % 2 == 0 then id[i / 2] / 16 else id[i / 2] % 16))
  }

  /** The texts `ObjectId(s)` accepts: exactly twenty-four hex digits of either case. */
  predicate IsObjectIdText(s: string) {
    |s| == 24 && forall i | 0 <= i < |s| :: IsHexDigit(s[i])
  }

  /** `ObjectId(s)` for a text `s`; `None` where the conversion raises `InvalidId`. */
  function Parse(s: string): (r: Option<ObjectId>)
    ensures r.Some? <==> IsObjectIdText(s)
  {
    if IsObjectIdText(s) then
      var id: ObjectId := seq(12, k requires 0 <= k < 12 => 16 * HexValue(s[2 * k]) + HexValue(s[2 * k + 1]));
      Some(id)
    else None
  }

  function LowerChar(c: char): char {
    if 'A' <= c <= 'F' then (c as int + 32) as char else c
  }

  /** Every identifier survives the trip to text and back. */
  lemma ParseToString(id: ObjectId)
    ensures Parse(ToString(id)) == Some(id)
  {
    var s := ToString(id);
    assert IsObjectIdText(s);
    var back := Parse(s).value;
    forall k | 0 <= k < 12
      ensures back[k] == id[k]
    {
      assert s[2 * k] == HexDigit(id[k] / 16);
      assert s[2 * k + 1] == HexDigit(id[k] % 16);
      assert back[k] == 16 * HexValue(s[2 * k]) + HexValue(s[2 * k + 1]);
    }
    assert back == id;
  }

  /** Parsing then rendering gives back the text, folded to lower case. */
  lemma ToStringParse(s: string)
    requires IsObjectIdText(s)
    ensures ToString(Parse(s).value) == seq(24, i requires 0 <= i < 24 => LowerChar(s[i]))
  {
    var id := Parse(s).value;
    forall i | 0 <= i < 24
      ensures ToString(id)[i] == LowerChar(s[i])
    {
      var k := i / 2;
      assert id[k] == 16 * HexValue(s[2 * k]) + HexValue(s[2 * k + 1]);
      if i % 2 == 0 {
        assert i == 2 * k;
        assert id[k] / 16 == HexValue(s[i]);
      } else {
        assert i == 2 * k + 1;
        assert id[k] % 16 == HexValue(s[i]);
      }
    }
  }

  /** No identifier occurs twice: the store's unique index on `_id`. */
  predicate Unique(ids: seq<ObjectId>) {
    forall i, j | 0 <= i < j < |ids| :: ids[i] != ids[j]
  }

  /**
   * The position of the first occurrence of `id`: the document that
   * `find_one`, `update_one` and `delete_one` on `_id` select.
   */
  function IndexOf(ids: seq<ObjectId>, id: ObjectId): (r: Option<nat>)
    ensures r.None? <==> id !in ids
    ensures r.Some? ==> r.value < |ids| && ids[r.value] == id
    ensures r.Some? ==> forall j | 0 <= j < r.value :: ids[j] != id
  {
    if |ids| == 0 then None
    else if ids[0] == id then Some(0)
    else match IndexOf(ids[1..], id)
      case None => None
      case Some(k) => Some(k + 1)
  }

  /** With unique identifiers, the first occurrence is the only one. */
  lemma IndexOfUnique(ids: seq<ObjectId>, i: nat)
    requires Unique(ids) && i < |ids|
    ensures IndexOf(ids, ids[i]) == Some(i)
  {
  }

  /** Appending an identifier not yet present keeps them unique. */
  lemma UniqueAppend(ids: seq<ObjectId>, id: ObjectId)
    requires Unique(ids) && id !in ids
    ensures Unique(ids + [id])
  {
  }

  /** Putting an identifier not yet present in front keeps them unique. */
  lemma UniqueCons(id: ObjectId, ids: seq<ObjectId>)
    requires Unique(ids) && id !in ids
    ensures Unique([id] + ids)
  {
    var r := [id] + ids;
    forall p, q | 0 <= p < q < |r|
      ensures r[p] != r[q]
    {
      assert r[q] == ids[q - 1];
      if p > 0 {
        assert r[p] == ids[p - 1];
      }
    }
  }

  /** Removing one position keeps identifiers unique and drops that identifier. */
  lemma UniqueRemove(ids: seq<ObjectId>, i: nat)
    requires Unique(ids) && i < |ids|
    ensures Unique(ids[..i] + ids[i + 1..])
    ensures ids[i] !in ids[..i] + ids[i + 1..]
  {
    var r := ids[..i] + ids[i + 1..];
    forall p, q | 0 <= p < q < |r|
      ensures r[p] != r[q]
    {
      var p' := if p < i then p else p + 1;
      var q' := if q < i then q else q + 1;
      assert r[p] == ids[p'] && r[q] == ids[q'];
    }
    forall p | 0 <= p < |r|
      ensures r[p] != ids[i]
    {
      assert r[p] == ids[if p < i then p else p + 1];
    }
  }
}
