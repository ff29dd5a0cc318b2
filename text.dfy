/** The Python string operations the core relies on: `lower`, `strip`,
    `startswith`, the `in` substring test and `split` on one character. */
module Text {

  /** `str.lower()` on one character; only ASCII letters are folded. */
  function LowerChar(c: char): char {
    if 'A' <= c <= 'Z' then (c as int + 32) as char else c
  }

  function Lower(s: string): (r: string)
    ensures |r| == |s|
    ensures forall i :: 0 <= i < |s| ==> r[i] == LowerChar(s[i])
  {
    seq(|s|, i requires 0 <= i < |s| => LowerChar(s[i]))
  }

  /** The characters `str.isspace()` accepts, and so `str.strip()` removes. */
  predicate IsSpace(c: char) {
    || c == ' '
    || '\t' <= c <= '\r'
    || '\U{1C}' <= c <= '\U{1F}'
    || c == '\U{85}' || c == '\U{A0}' || c == '\U{1680}'
    || '\U{2000}' <= c <= '\U{200A}'
    || c == '\U{2028}' || c == '\U{2029}' || c == '\U{202F}' || c == '\U{205F}' || c == '\U{3000}'
  }

  function TrimStart(s: string): (r: string)
    ensures |r| <= |s| && r == s[|s| - |r|..]
    ensures r == [] || !IsSpace(r[0])
    ensures forall i :: 0 <= i < |s| - |r| ==> IsSpace(s[i])
  {
    if s != [] && IsSpace(s[0]) then TrimStart(s[1..]) else s
  }

  function TrimEnd(s: string): (r: string)
    ensures |r| <= |s| && r == s[..|r|]
    ensures r == [] || !IsSpace(r[|r| - 1])
    ensures forall i :: |r| <= i < |s| ==> IsSpace(s[i])
  {
    if s != [] && IsSpace(s[|s| - 1]) then TrimEnd(s[..|s| - 1]) else s
  }

  /** `str.strip()`: the longest middle part of `s` that neither begins nor
      ends with whitespace; everything cut off is whitespace. */
  function Strip(s: string): (r: string)
    ensures r == [] || (!IsSpace(r[0]) && !IsSpace(r[|r| - 1]))
    ensures var i := |s| - |TrimStart(s)|;
            && 0 <= i <= |s| - |r| && r == s[i..i + |r|]
            && (forall k :: 0 <= k < i ==> IsSpace(s[k]))
            && (forall k :: i + |r| <= k < |s| ==> IsSpace(s[k]))
  {
    TrimEnd(TrimStart(s))
  }

  /** Trailing whitespace after a text that ends in a non-space character is
      all `rstrip` removes. */
  lemma {:induction false} TrimEndAfter(p: string, s: string)
    requires p != [] && !IsSpace(p[|p| - 1])
    ensures TrimEnd(p + s) == p + TrimEnd(s)
  {
    if s != [] {
      assert (p + s)[|p + s| - 1] == s[|s| - 1];
      if IsSpace(s[|s| - 1]) {
        assert (p + s)[..|p + s| - 1] == p + s[..|s| - 1];
        TrimEndAfter(p, s[..|s| - 1]);
      }
    } else {
      assert p + s == p;
    }
  }

  /** A character added to a text with a non-space character stays after
      `lstrip`. */
  lemma {:induction false} TrimStartSnoc(t: string, c: char)
    requires TrimStart(t) != []
    ensures TrimStart(t + [c]) == TrimStart(t) + [c]
  {
    assert (t + [c])[0] == t[0];
    if IsSpace(t[0]) {
      assert (t + [c])[1..] == t[1..] + [c];
      TrimStartSnoc(t[1..], c);
    }
  }

  /** A text made only of whitespace strips to nothing. */
  lemma AllSpaceStrip(t: string)
    requires forall i :: 0 <= i < |t| ==> IsSpace(t[i])
    ensures TrimStart(t) == []
  {
  }

  /** A trailing whitespace character does not change what `strip` returns. */
  lemma StripTrailingSpace(t: string, c: char)
    requires IsSpace(c)
    ensures Strip(t + [c]) == Strip(t)
  {
    var u := t + [c];
    assert u[..|u| - 1] == t;
    if TrimStart(t) == [] {
      forall i | 0 <= i < |u|
        ensures IsSpace(u[i])
      {
        if i < |t| {
          assert u[i] == t[i];
        }
      }
      AllSpaceStrip(u);
    } else {
      TrimStartSnoc(t, c);
      var w := TrimStart(t) + [c];
      assert w[..|w| - 1] == TrimStart(t);
    }
  }

  /** Stripping after `rstrip` is stripping. */
  lemma {:induction false} StripTrimEnd(t: string)
    ensures Strip(TrimEnd(t)) == Strip(t)
  {
    if t != [] && IsSpace(t[|t| - 1]) {
      var init := t[..|t| - 1];
      StripTrimEnd(init);
      assert init + [t[|t| - 1]] == t;
      StripTrailingSpace(init, t[|t| - 1]);
    }
  }

  /** `s.startswith(prefix)` */
  predicate StartsWith(s: string, prefix: string) {
    |prefix| <= |s| && s[..|prefix|] == prefix
  }

  predicate OccursAt(hay: string, needle: string, i: int) {
    0 <= i <= |hay| - |needle| && hay[i..i + |needle|] == needle
  }

  /** `needle in hay` */
  predicate Contains(hay: string, needle: string) {
    exists i :: 0 <= i <= |hay| - |needle| && OccursAt(hay, needle, i)
  }

  /** `s.split(sep)`: the pieces between occurrences of `sep`, empty pieces
      included; the empty string splits into one empty piece. */
  function Split(s: string, sep: char): (r: seq<string>)
    ensures |r| >= 1
    ensures forall k :: 0 <= k < |r| ==> sep !in r[k]
  {
    if s == [] then [""]
    else
      var rest := Split(s[1..], sep);
      if s[0] == sep then [""] + rest
      else [[s[0]] + rest[0]] + rest[1..]
  }

  /** `sep.join(parts)` */
  function Join(parts: seq<string>, sep: char): string {
    if parts == [] then ""
    else if |parts| == 1 then parts[0]
    else parts[0] + [sep] + Join(parts[1..], sep)
  }

  /** Splitting and joining again gives back the text. */
  lemma {:induction false} JoinSplit(s: string, sep: char)
    ensures Join(Split(s, sep), sep) == s
  {
    if s != [] {
      JoinSplit(s[1..], sep);
      var rest := Split(s[1..], sep);
      if s[0] != sep {
        if |rest| > 1 {
          assert ([[s[0]] + rest[0]] + rest[1..])[1..] == rest[1..];
          assert Join(rest, sep) == rest[0] + [sep] + Join(rest[1..], sep);
        }
      }
    }
  }

  /** Joining pieces free of `sep` and splitting again gives back the pieces. */
  lemma {:induction false} SplitJoin(parts: seq<string>, sep: char)
    requires |parts| >= 1
    requires forall k :: 0 <= k < |parts| ==> sep !in parts[k]
    ensures Split(Join(parts, sep), sep) == parts
    decreases |parts|, |parts[0]|
  {
    var p := parts[0];
    if p == [] {
      if |parts| > 1 {
        SplitJoin(parts[1..], sep);
        assert Join(parts, sep) == [sep] + Join(parts[1..], sep);
        assert ([sep] + Join(parts[1..], sep))[1..] == Join(parts[1..], sep);
      }
    } else {
      var tail := [p[1..]] + parts[1..];
      forall k | 0 <= k < |tail| ensures sep !in tail[k] {
        if k == 0 { assert forall c :: c in p[1..] ==> c in p; }
      }
      SplitJoin(tail, sep);
      if |parts| == 1 {
        assert Join(parts, sep) == p;
      } else {
        assert Join(parts, sep) == p + [sep] + Join(parts[1..], sep);
        assert Join(tail, sep) == p[1..] + [sep] + Join(parts[1..], sep);
      }
      assert Join(parts, sep) == [p[0]] + Join(tail, sep);
      assert ([p[0]] + Join(tail, sep))[1..] == Join(tail, sep);
      assert [p[0]] + p[1..] == p;
    }
  }
}
