/**
 * The JavaScript string operations the browser provisioner relies on:
 * String.prototype.split with a one-character separator, Array.prototype.join,
 * String.prototype.trim and String.prototype.includes.
 */
module Text {

  /** The code points String.prototype.trim removes: WhiteSpace and LineTerminator (Zs as of Unicode 15). */
  predicate IsWhitespace(c: char) {
    || c == '\t' || c == '\n' || c == '\U{B}' || c == '\U{C}' || c == '\r'
    || c == ' ' || c == '\U{A0}' || c == '\U{1680}'
    || ('\U{2000}' <= c <= '\U{200A}')
    || c == '\U{2028}' || c == '\U{2029}' || c == '\U{202F}' || c == '\U{205F}'
    || c == '\U{3000}' || c == '\U{FEFF}'
  }

  predicate AllWhitespace(s: string) {
    forall i :: 0 <= i < |s| ==> IsWhitespace(s[i])
  }

  /** A string that begins and ends with something other than whitespace (or is empty). */
  predicate Trimmed(s: string) {
    s == [] || (!IsWhitespace(s[0]) && !IsWhitespace(s[|s| - 1]))
  }

  /** The first position at or after lo that is not whitespace (|s| if there is none). */
  function SkipLeading(s: string, lo: nat): (i: nat)
    requires lo <= |s|
    ensures lo <= i <= |s|
    ensures forall k :: lo <= k < i ==> IsWhitespace(s[k])
    ensures i == |s| || !IsWhitespace(s[i])
    decreases |s| - lo
  {
    if lo < |s| && IsWhitespace(s[lo]) then SkipLeading(s, lo + 1) else lo
  }

  /** The end of s[lo..hi] once its trailing whitespace is dropped. */
  function SkipTrailing(s: string, lo: nat, hi: nat): (j: nat)
    requires lo <= hi <= |s|
    ensures lo <= j <= hi
    ensures forall k :: j <= k < hi ==> IsWhitespace(s[k])
    ensures j == lo || !IsWhitespace(s[j - 1])
    decreases hi - lo
  {
    if lo < hi && IsWhitespace(s[hi - 1]) then SkipTrailing(s, lo, hi - 1) else hi
  }

  /**
   * String.prototype.trim: the middle of s once leading and trailing
   * whitespace are dropped.
   */
  function Trim(s: string): (r: string)
    ensures Trimmed(r)
    ensures exists i :: PaddedAt(s, r, i)
    ensures r == [] <==> AllWhitespace(s)
  {
    var i := SkipLeading(s, 0);
    var j := SkipTrailing(s, i, |s|);
    assert i < |s| ==> !IsWhitespace(s[i]);
    assert PaddedAt(s, s[i..j], i);
    s[i..j]
  }

  /** s is r with only whitespace before position i and after r. */
  predicate PaddedAt(s: string, r: string, i: nat) {
    && i + |r| <= |s| && r == s[i..i + |r|]
    && (forall k :: 0 <= k < i ==> IsWhitespace(s[k]))
    && (forall k :: i + |r| <= k < |s| ==> IsWhitespace(s[k]))
  }

  lemma TrimmedIsFixed(s: string)
    requires Trimmed(s)
    ensures Trim(s) == s
  {
  }

  /**
   * String.prototype.split with a one-character separator: the pieces between
   * separators, in order, always at least one (the empty string gives [""]).
   */
  function Split(s: string, sep: char): (r: seq<string>)
    ensures |r| >= 1
    ensures forall k :: 0 <= k < |r| ==> sep !in r[k]
    decreases |s|
  {
    if s == [] then [""]
    else
      var rest := Split(s[1..], sep);
      if s[0] == sep then [""] + rest else [[s[0]] + rest[0]] + rest[1..]
  }

  /** The total length of the pieces. */
  function SumLen(parts: seq<string>): nat {
    if parts == [] then 0 else |parts[0]| + SumLen(parts[1..])
  }

  /** Array.prototype.join with a one-character separator: the pieces plus one separator between each two. */
  function Join(parts: seq<string>, sep: char): (r: string)
    ensures parts != [] ==> |r| == SumLen(parts) + |parts| - 1
  {
    if |parts| == 0 then ""
    else if |parts| == 1 then parts[0]
    else parts[0] + [sep] + Join(parts[1..], sep)
  }

  /** Joining the pieces of a split gives back the original string. */
  lemma {:induction false} JoinOfSplit(s: string, sep: char)
    ensures Join(Split(s, sep), sep) == s
    decreases |s|
  {
    if s != [] {
      var rest := Split(s[1..], sep);
      JoinOfSplit(s[1..], sep);
      if s[0] == sep {
        assert Split(s, sep) == [""] + rest;
      } else {
        var parts := Split(s, sep);
        assert parts == [[s[0]] + rest[0]] + rest[1..];
        if |rest| == 1 {
          assert parts == [[s[0]] + rest[0]];
        } else {
          assert parts[1..] == rest[1..];
          assert Join(rest, sep) == rest[0] + [sep] + Join(rest[1..], sep);
        }
      }
    }
  }

  /** A string without the separator is a single piece. */
  lemma {:induction false} SplitWithoutSeparator(a: string, sep: char)
    requires sep !in a
    ensures Split(a, sep) == [a]
    decreases |a|
  {
    if a != [] {
      SplitWithoutSeparator(a[1..], sep);
      assert [a[0]] + a[1..] == a;
    }
  }

  /** A separator ends the first piece: what follows is split on its own. */
  lemma {:induction false} SplitAtSeparator(a: string, b: string, sep: char)
    requires sep !in a
    ensures Split(a + [sep] + b, sep) == [a] + Split(b, sep)
    decreases |a|
  {
    if a == [] {
      assert a + [sep] + b == [sep] + b;
      assert ([sep] + b)[1..] == b;
    } else {
      var s := a + [sep] + b;
      assert s[0] == a[0] && s[1..] == a[1..] + [sep] + b;
      SplitAtSeparator(a[1..], b, sep);
      assert [a[0]] + a[1..] == a;
    }
  }

  /** Splitting a join of separator-free pieces gives back the pieces. */
  lemma {:induction false} SplitOfJoin(parts: seq<string>, sep: char)
    requires |parts| >= 1
    requires forall k :: 0 <= k < |parts| ==> sep !in parts[k]
    ensures Split(Join(parts, sep), sep) == parts
    decreases |parts|
  {
    if |parts| == 1 {
      SplitWithoutSeparator(parts[0], sep);
    } else {
      SplitOfJoin(parts[1..], sep);
      SplitAtSeparator(parts[0], Join(parts[1..], sep), sep);
      assert [parts[0]] + parts[1..] == parts;
    }
  }

  predicate AllSeparatorOrWhitespace(s: string, sep: char) {
    forall i :: 0 <= i < |s| ==> s[i] == sep || IsWhitespace(s[i])
  }

  predicate AllBlank(parts: seq<string>) {
    forall k :: 0 <= k < |parts| ==> AllWhitespace(parts[k])
  }

  /** Every piece of a split is blank exactly when the string holds only separators and whitespace. */
  lemma {:induction false} SplitAllBlank(s: string, sep: char)
    ensures AllBlank(Split(s, sep)) <==> AllSeparatorOrWhitespace(s, sep)
    decreases |s|
  {
    if s != [] {
      SplitAllBlank(s[1..], sep);
      var rest := Split(s[1..], sep);
      var parts := Split(s, sep);
      assert AllSeparatorOrWhitespace(s, sep)
        <==> (s[0] == sep || IsWhitespace(s[0])) && AllSeparatorOrWhitespace(s[1..], sep) by {
        assert forall i :: 1 <= i < |s| ==> s[i] == s[1..][i - 1];
      }
      if s[0] == sep {
        assert parts == [""] + rest;
        assert AllBlank(parts) <==> AllBlank(rest) by {
          assert AllWhitespace(parts[0]);
          assert forall k :: 1 <= k < |parts| ==> parts[k] == rest[k - 1];
          assert forall k :: 0 <= k < |rest| ==> rest[k] == parts[k + 1];
        }
      } else {
        var head := [s[0]] + rest[0];
        assert parts == [head] + rest[1..];
        assert AllWhitespace(head) <==> IsWhitespace(s[0]) && AllWhitespace(rest[0]) by {
          assert head[0] == s[0];
          assert forall i :: 1 <= i < |head| ==> head[i] == rest[0][i - 1];
          assert forall i :: 0 <= i < |rest[0]| ==> rest[0][i] == head[i + 1];
        }
        assert AllBlank(parts) <==> AllWhitespace(head) && AllBlank(rest[1..]) by {
          assert parts[0] == head;
          assert forall k :: 1 <= k < |parts| ==> parts[k] == rest[1..][k - 1];
          assert forall k :: 0 <= k < |rest[1..]| ==> rest[1..][k] == parts[k + 1];
        }
        assert AllBlank(rest) <==> AllWhitespace(rest[0]) && AllBlank(rest[1..]) by {
          assert forall k :: 1 <= k < |rest| ==> rest[k] == rest[1..][k - 1];
          assert forall k :: 0 <= k < |rest[1..]| ==> rest[1..][k] == rest[k + 1];
        }
      }
    }
  }

  /** needle occurs in hay at some position: the meaning of String.prototype.includes. */
  ghost predicate Occurs(needle: string, hay: string) {
    exists i :: 0 <= i <= |hay| && needle <= hay[i..]
  }

  /** String.prototype.includes, tried position by position. */
  function Includes(hay: string, needle: string): (r: bool)
    ensures r <==> Occurs(needle, hay)
    decreases |hay|
  {
    if needle <= hay then
      assert hay[0..] == hay;
      true
    else if hay == [] then
      false
    else
      var r := Includes(hay[1..], needle);
      assert forall i :: 1 <= i <= |hay| ==> hay[i..] == hay[1..][i - 1..];
      assert r ==> exists i :: 1 <= i <= |hay| && needle <= hay[i..] by {
        if r {
          var j :| 0 <= j <= |hay[1..]| && needle <= hay[1..][j..];
          assert hay[j + 1..] == hay[1..][j..];
        }
      }
      r
  }

}
