/**
 * The JavaScript string primitives the flipboard relies on: `split` with a
 * one-character separator, `trim`, and the notion of the visible (non-white)
 * characters of a string, which the wrapper is proved to preserve.
 */
module Text {

  /** The characters `String.prototype.trim` removes: ECMAScript's WhiteSpace
      (tab, vertical tab, form feed, no-break space, byte order mark and the
      Unicode space separators) and its LineTerminator characters. */
  predicate IsWhite(c: char) {
    || c == '\t' || c == '\n' || c == '\U{000B}' || c == '\U{000C}' || c == '\r'
    || c == ' ' || c == '\U{00A0}' || c == '\U{1680}'
    || ('\U{2000}' <= c <= '\U{200A}')
    || c == '\U{2028}' || c == '\U{2029}' || c == '\U{202F}' || c == '\U{205F}'
    || c == '\U{3000}' || c == '\U{FEFF}'
  }

  predicate AllWhite(s: string) {
    forall k :: 0 <= k < |s| ==> IsWhite(s[k])
  }

  /** The first position from `i` on that holds no white character (`|s|`
      when there is none). */
  function SkipWhite(s: string, i: nat): (k: nat)
    requires i <= |s|
    ensures i <= k <= |s|
    ensures forall j :: i <= j < k ==> IsWhite(s[j])
    ensures k < |s| ==> !IsWhite(s[k])
    decreases |s| - i
  {
    if i == |s| || !IsWhite(s[i]) then i else SkipWhite(s, i + 1)
  }

  /** `s` with its leading white characters removed. */
  function TrimStart(s: string): (r: string)
    ensures |r| <= |s| && r == s[|s| - |r|..]
    ensures AllWhite(s[..|s| - |r|])
    ensures r != [] ==> !IsWhite(r[0])
  {
    var k := SkipWhite(s, 0);
    assert forall j :: 0 <= j < k ==> s[..k][j] == s[j];
    s[k..]
  }

  /** `s` with its trailing white characters removed. */
  function TrimEnd(s: string): (r: string)
    ensures |r| <= |s| && r == s[..|r|]
    ensures AllWhite(s[|r|..])
    ensures r != [] ==> !IsWhite(r[|r| - 1])
  {
    if s != [] && IsWhite(s[|s| - 1]) then
      var r := TrimEnd(s[..|s| - 1]);
      assert s[|r|..] == s[..|s| - 1][|r|..] + [s[|s| - 1]];
      assert s[..|r|] == s[..|s| - 1][..|r|];
      r
    else
      s
  }

  /** `s.trim()`: `s` without its leading and trailing white runs (see
      `TrimIsMiddle`). It neither starts nor ends with a white character,
      and is empty exactly when `s` is all white. */
  function Trim(s: string): (r: string)
    ensures |r| <= |s|
    ensures r == [] <==> AllWhite(s)
    ensures r != [] ==> !IsWhite(r[0]) && !IsWhite(r[|r| - 1])
  {
    TrimEmptyIff(s);
    TrimEnd(TrimStart(s))
  }

  /** The trimmed string is the middle of `s`, between a white run at its
      start and a white run at its end. */
  lemma TrimIsMiddle(s: string)
    ensures var r := Trim(s);
      exists i :: 0 <= i <= i + |r| <= |s| && r == s[i..i + |r|] && AllWhite(s[..i]) && AllWhite(s[i + |r|..])
  {
    var t := TrimStart(s);
    var r := TrimEnd(t);
    var i := |s| - |t|;
    assert t == s[i..];
    assert r == s[i..i + |r|] by {
      assert r == t[..|r|];
    }
    assert s[i + |r|..] == t[|r|..];
  }

  /** Trimming both ends leaves nothing exactly when `s` is all white. */
  lemma TrimEmptyIff(s: string)
    ensures TrimEnd(TrimStart(s)) == [] <==> AllWhite(s)
  {
    var t := TrimStart(s);
    var r := TrimEnd(t);
    if r == [] {
      assert t[|r|..] == t;
      assert t == [];
      assert s[..|s| - |t|] == s;
    } else {
      assert t[0] == r[0];
      assert s[|s| - |t|] == t[0];
    }
  }

  /** The visible characters of `s`, in order: everything that is not white. */
  function Ink(s: string): string {
    if s == [] then [] else (if IsWhite(s[0]) then [] else [s[0]]) + Ink(s[1..])
  }

  /** All lines of `lines`, one after the other. */
  function Flatten(lines: seq<string>): string {
    if lines == [] then [] else lines[0] + Flatten(lines[1..])
  }

  /** `parts.join(sep)`. */
  function Join(parts: seq<string>, sep: char): string
    requires |parts| >= 1
  {
    if |parts| == 1 then parts[0] else parts[0] + [sep] + Join(parts[1..], sep)
  }

  /** `s.split(sep)` for a one-character separator: at least one piece, no
      piece contains the separator, and joining the pieces back gives `s`
      (consecutive separators give empty pieces, and "" gives [""]). */
  function Split(s: string, sep: char): (parts: seq<string>)
    ensures |parts| >= 1
    ensures forall k :: 0 <= k < |parts| ==> sep !in parts[k]
    ensures Join(parts, sep) == s
  {
    if s == [] then [""]
    else
      var rest := Split(s[1..], sep);
      if s[0] == sep then
        assert ([""] + rest)[1..] == rest;
        [""] + rest
      else
        var parts := [[s[0]] + rest[0]] + rest[1..];
        assert |rest| > 1 ==> parts[1..] == rest[1..] && Join(rest, sep) == rest[0] + [sep] + Join(rest[1..], sep);
        assert s == [s[0]] + s[1..];
        parts
  }

  lemma {:induction false} SplitPrefix(a: string, b: string, sep: char)
    requires sep !in a
    ensures Split(a + b, sep) == [a + Split(b, sep)[0]] + Split(b, sep)[1..]
    decreases |a|
  {
    if a != [] {
      var parts := Split(b, sep);
      assert (a + b)[0] == a[0] != sep;
      assert (a + b)[1..] == a[1..] + b;
      SplitPrefix(a[1..], b, sep);
      var rest := Split(a[1..] + b, sep);
      assert rest[0] == a[1..] + parts[0] && rest[1..] == parts[1..];
      assert [a[0]] + (a[1..] + parts[0]) == a + parts[0];
    } else {
      var parts := Split(b, sep);
      assert a + b == b;
      assert parts == [parts[0]] + parts[1..];
      assert a + parts[0] == parts[0];
    }
  }

  /** Splitting undoes joining, as long as no piece contains the separator. */
  lemma {:induction false} SplitJoin(parts: seq<string>, sep: char)
    requires |parts| >= 1
    requires forall k :: 0 <= k < |parts| ==> sep !in parts[k]
    ensures Split(Join(parts, sep), sep) == parts
    decreases |parts|
  {
    if |parts| == 1 {
      SplitPrefix(parts[0], [], sep);
      assert Split([], sep) == [""];
      assert parts[0] + [] == parts[0];
      assert parts == [parts[0]];
    } else {
      var tail := parts[1..];
      var rest := Join(tail, sep);
      assert Join(parts, sep) == parts[0] + ([sep] + rest);
      SplitJoin(tail, sep);
      var after := Split([sep] + rest, sep);
      assert ([sep] + rest)[1..] == rest;
      assert after == [""] + tail;
      SplitPrefix(parts[0], [sep] + rest, sep);
      assert parts[0] + after[0] == parts[0];
      assert after[1..] == tail;
      assert parts == [parts[0]] + tail;
    }
  }

  lemma {:induction false} InkConcat(a: string, b: string)
    ensures Ink(a + b) == Ink(a) + Ink(b)
    decreases |a|
  {
    if a != [] {
      assert (a + b)[1..] == a[1..] + b;
      InkConcat(a[1..], b);
    } else {
      assert a + b == b;
    }
  }

  /** Strings with the same visible characters stay so when extended alike. */
  lemma InkCongruence(a: string, b: string, c: string, d: string)
    requires Ink(a) == Ink(b) && Ink(c) == Ink(d)
    ensures Ink(a + c) == Ink(b + d)
  {
    InkConcat(a, c);
    InkConcat(b, d);
  }

  lemma {:induction false} InkOfAllWhite(s: string)
    requires AllWhite(s)
    ensures Ink(s) == []
    decreases |s|
  {
    if s != [] {
      InkOfAllWhite(s[1..]);
    }
  }

  lemma InkOfTrimStart(s: string)
    ensures Ink(TrimStart(s)) == Ink(s)
  {
    var t := TrimStart(s);
    var head := s[..|s| - |t|];
    assert s == head + t;
    InkConcat(head, t);
    InkOfAllWhite(head);
  }

  lemma InkOfTrimEnd(s: string)
    ensures Ink(TrimEnd(s)) == Ink(s)
  {
    var t := TrimEnd(s);
    var tail := s[|t|..];
    assert s == t + tail;
    InkConcat(t, tail);
    InkOfAllWhite(tail);
  }

  /** Trimming removes only white characters. */
  lemma InkOfTrim(s: string)
    ensures Ink(Trim(s)) == Ink(s)
  {
    InkOfTrimStart(s);
    InkOfTrimEnd(TrimStart(s));
  }

  lemma {:induction false} FlattenConcat(a: seq<string>, b: seq<string>)
    ensures Flatten(a + b) == Flatten(a) + Flatten(b)
    decreases |a|
  {
    if a != [] {
      assert (a + b)[1..] == a[1..] + b;
      FlattenConcat(a[1..], b);
    } else {
      assert a + b == b;
    }
  }

  /** Joining with a white separator adds no visible character. */
  lemma {:induction false} InkOfJoin(parts: seq<string>, sep: char)
    requires |parts| >= 1 && IsWhite(sep)
    ensures Ink(Join(parts, sep)) == Ink(Flatten(parts))
    decreases |parts|
  {
    if |parts| == 1 {
      assert Flatten(parts) == parts[0] + Flatten([]);
      assert parts[0] + [] == parts[0];
    } else {
      InkOfJoin(parts[1..], sep);
      InkConcat(parts[0] + [sep], Join(parts[1..], sep));
      InkConcat(parts[0], [sep]);
      InkConcat(parts[0], Flatten(parts[1..]));
    }
  }
}
