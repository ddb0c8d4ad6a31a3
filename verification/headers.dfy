/**
 * The response header list (NIO's `HTTPHeaders`): an ordered list of
 * (name, value) fields whose names compare ASCII case-insensitively.
 * Only the operations the response uses are modelled: `replaceOrAdd`,
 * `remove`, the multi-valued lookup `headers[name]` and the accessor's
 * `joined(separator: ", ")`.
 */
module Headers {

  type Field = (string, string)

  type Fields = seq<Field>

  function LowerAscii(c: char): char {
    if 'A' <= c <= 'Z' then (c as int + 32) as char else c
  }

  /** The name with its ASCII capitals lowered: two header names are the same name when these agree. */
  function LowerAsciiName(name: string): (f: string)
    ensures |f| == |name|
  {
    seq(|name|, i requires 0 <= i < |name| => LowerAscii(name[i]))
  }

  predicate SameName(a: string, b: string) {
    LowerAsciiName(a) == LowerAsciiName(b)
  }

  /** `headers[name]`: every value stored under `name`, in list order. */
  function Values(h: Fields, name: string): (vs: seq<string>)
    ensures |vs| <= |h|
  {
    if h == [] then []
    else (if SameName(h[0].0, name) then [h[0].1] else []) + Values(h[1..], name)
  }

  /** `remove(name:)`: drops every field stored under `name`, keeping the others in order. */
  function Remove(h: Fields, name: string): (r: Fields)
    ensures |r| <= |h|
    ensures forall i :: 0 <= i < |r| ==> !SameName(r[i].0, name) && r[i] in h
  {
    if h == [] then []
    else if SameName(h[0].0, name) then Remove(h[1..], name)
    else [h[0]] + Remove(h[1..], name)
  }

  /** `replaceOrAdd(name:value:)`: removes every field stored under `name`, then appends the new one. */
  function ReplaceOrAdd(h: Fields, name: string, value: string): (r: Fields)
    ensures 0 < |r| <= |h| + 1 && r[|r| - 1] == (name, value)
    ensures forall i :: 0 <= i < |r| - 1 ==> !SameName(r[i].0, name) && r[i] in h
  {
    Remove(h, name) + [(name, value)]
  }

  /** The total length of the strings in `vs`. */
  function TotalLength(vs: seq<string>): nat {
    if vs == [] then 0 else |vs[0]| + TotalLength(vs[1..])
  }

  /**
   * `joined(separator:)`: the strings in order with `sep` between neighbours,
   * so one separator fewer than strings; a single string is returned as is.
   */
  function Join(vs: seq<string>, sep: string): (s: string)
    ensures vs == [] ==> s == ""
    ensures |vs| == 1 ==> s == vs[0]
    ensures vs != [] ==> vs[0] <= s && |s| == TotalLength(vs) + (|vs| - 1) * |sep|
  {
    if vs == [] then ""
    else if |vs| == 1 then vs[0]
    else vs[0] + sep + Join(vs[1..], sep)
  }

  /**
   * The response's header getter: all values under `name` joined by ", ";
   * "" when there is none, and the value itself when there is exactly one.
   */
  function Get(h: Fields, name: string): (v: string)
    ensures Values(h, name) == [] ==> v == ""
    ensures |Values(h, name)| == 1 ==> v == Values(h, name)[0]
    ensures |Values(h, name)| > 1 ==> Values(h, name)[0] + ", " <= v
  {
    Join(Values(h, name), ", ")
  }

  lemma {:induction false} ValuesOfConcat(h: Fields, k: Fields, name: string)
    ensures Values(h + k, name) == Values(h, name) + Values(k, name)
  {
    if h != [] {
      assert (h + k)[0] == h[0] && (h + k)[1..] == h[1..] + k;
      ValuesOfConcat(h[1..], k, name);
      var head := if SameName(h[0].0, name) then [h[0].1] else [];
      assert Values(h + k, name) == head + (Values(h[1..], name) + Values(k, name));
    } else {
      assert h + k == k;
    }
  }

  /** Removing a name empties its lookup and leaves the lookup of every other name as it was. */
  lemma {:induction false} ValuesOfRemove(h: Fields, name: string, other: string)
    ensures Values(Remove(h, name), other) == if SameName(name, other) then [] else Values(h, other)
  {
    if h != [] {
      ValuesOfRemove(h[1..], name, other);
      if !SameName(h[0].0, name) {
        ValuesOfConcat([h[0]], Remove(h[1..], name), other);
      }
    }
  }

  /** After `replaceOrAdd`, the name holds exactly the new value; every other name is untouched. */
  lemma ValuesOfReplaceOrAdd(h: Fields, name: string, value: string, other: string)
    ensures Values(ReplaceOrAdd(h, name, value), other) == if SameName(name, other) then [value] else Values(h, other)
  {
    ValuesOfConcat(Remove(h, name), [(name, value)], other);
    ValuesOfRemove(h, name, other);
  }

  /** `self[name] = v` followed by `self[name]` yields `v`. */
  lemma GetAfterSet(h: Fields, name: string, value: string)
    ensures Get(ReplaceOrAdd(h, name, value), name) == value
  {
    ValuesOfReplaceOrAdd(h, name, value, name);
  }

  /** `self[name] = nil` followed by `self[name]` yields the empty string, never nil. */
  lemma GetAfterRemove(h: Fields, name: string)
    ensures Get(Remove(h, name), name) == ""
  {
  }
}
