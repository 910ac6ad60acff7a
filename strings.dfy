/** The JavaScript string operations the model uses: white space, `startsWith` and `split` on one separator. */
module Strings {

  /** JavaScript white space and line terminators: what `\s`, `trim` and `parseInt` treat as space. */
  predicate JsSpace(c: char) {
    || c == '\t' || c == '\n' || c == '\U{000B}' || c == '\U{000C}' || c == '\r' || c == ' '
    || c == '\U{00A0}' || c == '\U{1680}' || ('\U{2000}' <= c <= '\U{200A}')
    || c == '\U{2028}' || c == '\U{2029}' || c == '\U{202F}' || c == '\U{205F}'
    || c == '\U{3000}' || c == '\U{FEFF}'
  }

  /** The input with its leading white space removed. */
  function TrimStart(s: string): (r: string)
    ensures |r| <= |s| && r == s[|s| - |r|..]
    ensures forall i :: 0 <= i < |s| - |r| ==> JsSpace(s[i])
    ensures r == [] || !JsSpace(r[0])
    decreases |s|
  {
    if s != [] && JsSpace(s[0]) then TrimStart(s[1..]) else s
  }

  /** The input with its trailing white space removed. */
  function TrimEnd(s: string): (r: string)
    ensures |r| <= |s| && r == s[..|r|]
    ensures forall i :: |r| <= i < |s| ==> JsSpace(s[i])
    ensures r == [] || !JsSpace(r[|r| - 1])
    decreases |s|
  {
    if s != [] && JsSpace(s[|s| - 1]) then TrimEnd(s[..|s| - 1]) else s
  }

  /** Nothing but white space (the empty string included). */
  predicate Blank(s: string) {
    forall i :: 0 <= i < |s| ==> JsSpace(s[i])
  }

  /** `r` is a contiguous part of `s` with only white space around it. */
  predicate Inside(s: string, r: string) {
    exists i :: 0 <= i <= |s| - |r| && r == s[i..i + |r|] && Blank(s[..i]) && Blank(s[i + |r|..])
  }

  /** `trim`: white space removed from both ends. */
  function Trim(s: string): (r: string)
    ensures Inside(s, r)
    ensures r == [] || (!JsSpace(r[0]) && !JsSpace(r[|r| - 1]))
    ensures Blank(s) <==> r == []
  {
    TrimInside(s);
    TrimEnd(TrimStart(s))
  }

  /** Trimming keeps the part of the input between its leading and its trailing white space. */
  lemma TrimInside(s: string)
    ensures Inside(s, TrimEnd(TrimStart(s)))
  {
    var t := TrimStart(s);
    var r := TrimEnd(t);
    var i := |s| - |t|;
    var before, after := s[..i], s[i + |r|..];
    assert r == s[i..i + |r|] by {
      assert s[i..i + |r|] == t[..|r|];
    }
    assert Blank(before) by {
      forall k | 0 <= k < |before| ensures JsSpace(before[k]) {
        assert before[k] == s[k];
      }
    }
    assert Blank(after) by {
      forall k | 0 <= k < |after| ensures JsSpace(after[k]) {
        assert after[k] == t[|r| + k];
      }
    }
  }

  predicate StartsWith(s: string, prefix: string) {
    |prefix| <= |s| && s[..|prefix|] == prefix
  }

  /** `s.split(sep)` for a one-character separator: the maximal separator-free fields, in order. */
  function Split(s: string, sep: char): (fields: seq<string>)
    ensures |fields| >= 1
    ensures forall i :: 0 <= i < |fields| ==> sep !in fields[i]
    decreases |s|
  {
    if s == [] then [""]
    else
      var rest := Split(s[1..], sep);
      if s[0] == sep then [""] + rest
      else [[s[0]] + rest[0]] + rest[1..]
  }

  /** `fields.join(sep)`. */
  function Join(fields: seq<string>, sep: char): string
    requires |fields| >= 1
    decreases |fields|
  {
    if |fields| == 1 then fields[0] else fields[0] + [sep] + Join(fields[1..], sep)
  }

  /** Splitting loses nothing: joining the fields back gives the original string. */
  lemma {:induction false} SplitJoin(s: string, sep: char)
    ensures Join(Split(s, sep), sep) == s
    decreases |s|
  {
    if s != [] {
      SplitJoin(s[1..], sep);
      var rest := Split(s[1..], sep);
      if s[0] != sep {
        if |rest| > 1 {
          assert Join(rest, sep) == rest[0] + [sep] + Join(rest[1..], sep);
          assert ([[s[0]] + rest[0]] + rest[1..])[1..] == rest[1..];
        }
      } else {
        assert ([""] + rest)[1..] == rest;
      }
    }
  }

  /** A separator cuts the field list in two: the fields of what precedes it, then those of what follows. */
  lemma {:induction false} SplitAtSeparator(w: string, t: string, sep: char)
    requires sep !in w
    ensures Split(w + [sep] + t, sep) == [w] + Split(t, sep)
    decreases |w|
  {
    if w == [] {
      assert [] + [sep] + t == [sep] + t;
      assert ([sep] + t)[1..] == t;
    } else {
      assert (w + [sep] + t)[1..] == w[1..] + [sep] + t;
      SplitAtSeparator(w[1..], t, sep);
      assert [w[0]] + w[1..] == w;
    }
  }

  /** A separator-free string is its own single field. */
  lemma {:induction false} SplitWithoutSeparator(s: string, sep: char)
    requires sep !in s
    ensures Split(s, sep) == [s]
    decreases |s|
  {
    if s != [] {
      SplitWithoutSeparator(s[1..], sep);
      assert [s[0]] + s[1..] == s;
    }
  }
}
