/** GATT characteristics as the platform reports them, and the rules the
    library's components use to pick one from a service's list. */
module Gatt {
  import opened Wrappers

  /** A discovered peripheral. */
  datatype Device = Device(id: string, name: string)

  /** The capability flags of a characteristic (`char.properties`). */
  datatype Properties = Properties(read: bool, write: bool, writeWithoutResponse: bool, notify: bool)

  /** A characteristic: its UUID as the platform gives it, and its flags. */
  datatype Characteristic = Characteristic(uuid: string, properties: Properties)

  /** `uuid.slice(-3)`: the last three characters, or the whole string when shorter. */
  function LastThree(uuid: string): (r: string)
    ensures |r| == if |uuid| >= 3 then 3 else |uuid|
    ensures uuid == uuid[..|uuid| - |r|] + r
  {
    if |uuid| >= 3 then uuid[|uuid| - 3..] else uuid
  }

  /** The preferred write characteristic's UUID ends in "bb3" (case-sensitive). */
  predicate PreferredUuid(uuid: string)
  {
    |uuid| >= 3 && uuid[|uuid| - 3] == 'b' && uuid[|uuid| - 2] == 'b' && uuid[|uuid| - 1] == '3'
  }

  /** The test `uuid.slice(-3) === "bb3"` is exactly `PreferredUuid`. */
  lemma PreferredUuidIsSliceTest(uuid: string)
    ensures PreferredUuid(uuid) <==> LastThree(uuid) == "bb3"
  {
    if LastThree(uuid) == "bb3" {
      assert LastThree(uuid)[0] == 'b' && LastThree(uuid)[1] == 'b' && LastThree(uuid)[2] == '3';
    }
  }

  /** Only characteristics with both write flags are considered writable. */
  predicate Writable(c: Characteristic)
  {
    c.properties.write && c.properties.writeWithoutResponse
  }

  /** Position `k` is the one the printer components' scan settles on:
      a writable characteristic that is either the first writable one whose
      UUID ends in "bb3", or, when there is no such one, the last writable one. */
  predicate IsSelection(chars: seq<Characteristic>, k: nat)
  {
    && k < |chars|
    && Writable(chars[k])
    && (PreferredUuid(chars[k].uuid) ==>
          forall i :: 0 <= i < k ==> !(Writable(chars[i]) && PreferredUuid(chars[i].uuid)))
    && (!PreferredUuid(chars[k].uuid) ==>
          && (forall i :: 0 <= i < |chars| ==> !(Writable(chars[i]) && PreferredUuid(chars[i].uuid)))
          && (forall i :: k < i < |chars| ==> !Writable(chars[i])))
  }

  /** The rule picks at most one characteristic. */
  lemma SelectionUnique(chars: seq<Characteristic>, j: nat, k: nat)
    requires IsSelection(chars, j) && IsSelection(chars, k)
    ensures j == k
  {
  }

  /** The scan of both printer components: walk the list, remember every
      writable characteristic, and stop at the first writable one whose UUID
      ends in "bb3". */
  method SelectWritable(chars: seq<Characteristic>) returns (found: Option<nat>)
    ensures found.None? <==> forall k :: 0 <= k < |chars| ==> !Writable(chars[k])
    ensures found.Some? ==> IsSelection(chars, found.value)
  {
    found := None;
    for i := 0 to |chars|
      invariant found.None? <==> forall k :: 0 <= k < i ==> !Writable(chars[k])
      invariant found.Some? ==> found.value < i && Writable(chars[found.value]) && !PreferredUuid(chars[found.value].uuid)
      invariant found.Some? ==> forall k :: found.value < k < i ==> !Writable(chars[k])
      invariant forall k :: 0 <= k < i ==> !(Writable(chars[k]) && PreferredUuid(chars[k].uuid))
    {
      if Writable(chars[i]) {
        found := Some(i);
        if PreferredUuid(chars[i].uuid) {
          return;
        }
      }
    }
  }

  /** Position `k` holds the first characteristic with the `read` flag. */
  predicate IsFirstReadable(chars: seq<Characteristic>, k: nat)
  {
    k < |chars| && chars[k].properties.read && forall i :: 0 <= i < k ==> !chars[i].properties.read
  }

  /** The scan for a status characteristic: the first one with `read`. */
  method FirstReadable(chars: seq<Characteristic>) returns (found: Option<nat>)
    ensures found.None? <==> forall k :: 0 <= k < |chars| ==> !chars[k].properties.read
    ensures found.Some? ==> IsFirstReadable(chars, found.value)
  {
    found := None;
    for i := 0 to |chars|
      invariant forall k :: 0 <= k < i ==> !chars[k].properties.read
    {
      if chars[i].properties.read {
        found := Some(i);
        return;
      }
    }
  }

  /** `toLowerCase()` on one character of a UUID: ASCII capitals become small letters. */
  function LowerChar(ch: char): (r: char)
    ensures 'A' <= ch <= 'Z' ==> r as int == ch as int + 32
    ensures !('A' <= ch <= 'Z') ==> r == ch
  {
    if 'A' <= ch <= 'Z' then (ch as int + 32) as char else ch
  }

  /** `toLowerCase()` on a UUID. */
  function ToLower(s: string): (r: string)
    ensures |r| == |s|
    ensures forall i :: 0 <= i < |s| ==> r[i] == LowerChar(s[i])
  {
    seq(|s|, i requires 0 <= i < |s| => LowerChar(s[i]))
  }

  /** The position of the last characteristic whose lower-cased UUID is
      `uuid` and, when `needsWrite`, that has `write` or
      `writeWithoutResponse`: the binding a scan without `break` ends with. */
  function LastMatch(chars: seq<Characteristic>, uuid: string, needsWrite: bool): (r: Option<nat>)
    ensures r.Some? ==> r.value < |chars| && Matches(chars[r.value], uuid, needsWrite)
    ensures r.Some? ==> forall k :: r.value < k < |chars| ==> !Matches(chars[k], uuid, needsWrite)
    ensures r.None? ==> forall k :: 0 <= k < |chars| ==> !Matches(chars[k], uuid, needsWrite)
  {
    if chars == [] then None
    else if Matches(chars[|chars| - 1], uuid, needsWrite) then Some(|chars| - 1)
    else LastMatch(chars[..|chars| - 1], uuid, needsWrite)
  }

  predicate Matches(c: Characteristic, uuid: string, needsWrite: bool)
  {
    ToLower(c.uuid) == ToLower(uuid) && (!needsWrite || c.properties.write || c.properties.writeWithoutResponse)
  }
}
