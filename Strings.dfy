/**
 * The few JavaScript string operations the core relies on:
 * truthiness of an optional string, `a || b`, `Array.prototype.join` and
 * `String.prototype.split` with a one-character separator.
 */
module Strings {
  import opened Wrappers

  /** `!!v` for a value of type `string | undefined`: only a non-empty string is truthy. */
  predicate Truthy(v: Option<string>) {
    v.Some? && v.value != ""
  }

  /** `v || fallback` for a value of type `string | undefined`. */
  function OrDefault(v: Option<string>, fallback: string): (r: string)
    ensures Truthy(v) ==> r == v.value
    ensures !Truthy(v) ==> r == fallback
  {
    if Truthy(v) then v.value else fallback
  }

  /** `parts.join(sep)`: the parts with `sep` between neighbours; `[]` gives `""`. */
  function Join(parts: seq<string>, sep: string): (joined: string)
    ensures |parts| == 1 ==> joined == parts[0]
  {
    if |parts| == 0 then ""
    else if |parts| == 1 then parts[0]
    else parts[0] + sep + Join(parts[1..], sep)
  }

  /** `s.split(c)` for a one-character separator; `"".split(c)` is `[""]`. */
  function Split(s: string, c: char): (parts: seq<string>)
    ensures |parts| >= 1
    ensures forall k :: 0 <= k < |parts| ==> c !in parts[k]
  {
    if s == [] then [""]
    else
      var rest := Split(s[1..], c);
      if s[0] == c then [""] + rest
      else [[s[0]] + rest[0]] + rest[1..]
  }

  /** Joining a split string with its separator gives the string back. */
  lemma {:induction false} JoinSplit(s: string, c: char)
    ensures Join(Split(s, c), [c]) == s
  {
    if s != [] {
      var rest := Split(s[1..], c);
      JoinSplit(s[1..], c);
      if s[0] == c {
        assert Split(s, c) == [""] + rest;
        assert ([""] + rest)[1..] == rest;
      } else {
        var parts := Split(s, c);
        assert parts == [[s[0]] + rest[0]] + rest[1..];
        if |rest| == 1 {
          assert parts == [[s[0]] + rest[0]];
        } else {
          assert parts[1..] == rest[1..];
          assert Join(rest, [c]) == rest[0] + [c] + Join(rest[1..], [c]);
        }
      }
    }
  }

  /** Splitting the join of separator-free parts gives the parts back. */
  lemma {:induction false} SplitJoin(parts: seq<string>, c: char)
    requires |parts| >= 1
    requires forall k :: 0 <= k < |parts| ==> c !in parts[k]
    ensures Split(Join(parts, [c]), c) == parts
  {
    if |parts| == 1 {
      SplitFree(parts[0], c);
    } else {
      SplitJoin(parts[1..], c);
      SplitPrefix(parts[0], Join(parts[1..], [c]), c);
      assert [parts[0]] + parts[1..] == parts;
    }
  }

  /** A string without the separator splits into itself alone. */
  lemma {:induction false} SplitFree(s: string, c: char)
    requires c !in s
    ensures Split(s, c) == [s]
  {
    if s != [] {
      SplitFree(s[1..], c);
      assert [s[0]] + s[1..] == s;
    }
  }

  /** A separator-free head followed by the separator becomes the first part. */
  lemma {:induction false} SplitPrefix(head: string, tail: string, c: char)
    requires c !in head
    ensures Split(head + [c] + tail, c) == [head] + Split(tail, c)
  {
    var s := head + [c] + tail;
    if head == [] {
      assert s[1..] == tail;
    } else {
      assert s[1..] == head[1..] + [c] + tail;
      SplitPrefix(head[1..], tail, c);
      assert [head[0]] + head[1..] == head;
    }
  }

  /** A separator-free head that ends the string or is followed by the separator is the first part. */
  lemma {:induction false} SplitFirst(head: string, tail: string, c: char)
    requires c !in head
    requires tail == [] || tail[0] == c
    ensures Split(head + tail, c)[0] == head
  {
    if head == [] {
      if tail != [] {
        assert Split(tail, c) == [""] + Split(tail[1..], c);
      }
    } else {
      assert (head + tail)[1..] == head[1..] + tail;
      SplitFirst(head[1..], tail, c);
      assert [head[0]] + head[1..] == head;
    }
  }

  /** A string splits into a single part exactly when it holds no separator. */
  lemma SplitSingle(s: string, c: char)
    ensures |Split(s, c)| == 1 <==> c !in s
  {
    JoinSplit(s, c);
    if c !in s {
      SplitFree(s, c);
    }
  }
}
