/** The few pieces of JavaScript's string semantics that the components rely on:
    `String.prototype.split` with a one-character separator, and the whitespace
    class `\s` of regular expressions (whose complement is `\S`). */
module JsText {

  /** `s.split(sep)` for a one-character separator: the maximal runs between
      separators, empty runs included, so a string with n separators always
      yields n + 1 parts. */
  function Split(s: string, sep: char): (parts: seq<string>)
    ensures |parts| >= 1
    ensures forall i :: 0 <= i < |parts| ==> sep !in parts[i]
    decreases |s|
  {
    if |s| == 0 then [""]
    else
      var rest := Split(s[1..], sep);
      if s[0] == sep then [""] + rest
      else [[s[0]] + rest[0]] + rest[1..]
  }

  /** The inverse of `Split`: the parts glued back together with `sep`. */
  function Join(parts: seq<string>, sep: char): string
    requires |parts| >= 1
    decreases |parts|
  {
    if |parts| == 1 then parts[0] else parts[0] + [sep] + Join(parts[1..], sep)
  }

  /** Splitting loses nothing: joining the parts restores the string. */
  lemma {:induction false} JoinSplit(s: string, sep: char)
    ensures Join(Split(s, sep), sep) == s
    decreases |s|
  {
    if |s| > 0 {
      var rest := Split(s[1..], sep);
      JoinSplit(s[1..], sep);
      if s[0] == sep {
        assert Split(s, sep) == [""] + rest;
        assert ([""] + rest)[1..] == rest;
      } else {
        var parts := Split(s, sep);
        assert parts[0] == [s[0]] + rest[0];
        if |rest| == 1 {
          assert s == [s[0]] + s[1..];
        } else {
          assert parts[1..] == rest[1..];
          assert Join(rest, sep) == rest[0] + [sep] + Join(rest[1..], sep);
          assert s == [s[0]] + s[1..];
        }
      }
    }
  }

  /** Splitting a string whose first `|p|` characters hold no separator:
      `p` is glued to the front of the first part and the rest is unchanged. */
  lemma {:induction false} SplitPrefix(p: string, t: string, sep: char)
    requires sep !in p
    ensures Split(p + t, sep) == [p + Split(t, sep)[0]] + Split(t, sep)[1..]
    decreases |p|
  {
    if |p| > 0 {
      var s, head := p + t, Split(t, sep)[0];
      assert s[1..] == p[1..] + t;
      SplitPrefix(p[1..], t, sep);
      var rest := Split(s[1..], sep);
      assert rest == [p[1..] + head] + Split(t, sep)[1..];
      assert s[0] == p[0] && p[0] != sep;
      assert Split(s, sep) == [[s[0]] + rest[0]] + rest[1..];
      assert rest[0] == p[1..] + head && rest[1..] == Split(t, sep)[1..];
      assert [p[0]] + (p[1..] + head) == p + head;
    } else {
      assert p + t == t;
      assert p + Split(t, sep)[0] == Split(t, sep)[0];
      assert [Split(t, sep)[0]] + Split(t, sep)[1..] == Split(t, sep);
    }
  }

  /** The other round trip: parts free of the separator are recovered by
      splitting their join. */
  lemma {:induction false} SplitJoin(parts: seq<string>, sep: char)
    requires |parts| >= 1
    requires forall i :: 0 <= i < |parts| ==> sep !in parts[i]
    ensures Split(Join(parts, sep), sep) == parts
    decreases |parts|
  {
    if |parts| == 1 {
      SplitPrefix(parts[0], "", sep);
      assert Split("", sep) == [""];
      assert parts[0] + "" == parts[0];
      assert Split(parts[0], sep) == [parts[0]] + [""][1..];
      assert Join(parts, sep) == parts[0];
      assert [parts[0]] + [""][1..] == parts;
    } else {
      var tail := Join(parts[1..], sep);
      SplitJoin(parts[1..], sep);
      assert parts[0] + [sep] + tail == parts[0] + ([sep] + tail);
      SplitPrefix(parts[0], [sep] + tail, sep);
      assert ([sep] + tail)[1..] == tail;
      var after := Split([sep] + tail, sep);
      assert after == [""] + parts[1..];
      assert after[0] == "" && after[1..] == parts[1..];
      assert parts[0] + after[0] == parts[0];
      assert parts == [parts[0]] + parts[1..];
    }
  }

  /** The first part of a split is empty exactly when the string is empty or
      starts with the separator, and otherwise starts with the string's first
      character. */
  lemma FirstToken(t: string, sep: char)
    ensures |Split(t, sep)[0]| > 0 <==> |t| > 0 && t[0] != sep
    ensures |t| > 0 && t[0] != sep ==> Split(t, sep)[0][0] == t[0]
  {
  }

  /** Where the second part of a split comes from: with no separator there is
      none, and otherwise it is the first part of what follows the first
      separator. */
  lemma {:induction false} SecondToken(s: string, sep: char)
    ensures sep !in s ==> |Split(s, sep)| == 1
    ensures forall p :: 0 <= p < |s| && s[p] == sep && sep !in s[..p] ==>
      |Split(s, sep)| >= 2 && Split(s, sep)[1] == Split(s[p + 1..], sep)[0]
    ensures forall p :: 0 <= p < |s| && s[p] == sep && sep !in s[..p] ==>
      (|Split(s, sep)[1]| > 0 <==> p + 1 < |s| && s[p + 1] != sep) &&
      (p + 1 < |s| && s[p + 1] != sep ==> Split(s, sep)[1][0] == s[p + 1])
  {
    if sep !in s {
      SplitPrefix(s, "", sep);
      assert s + "" == s;
    }
    forall p | 0 <= p < |s| && s[p] == sep && sep !in s[..p]
      ensures |Split(s, sep)| >= 2 && Split(s, sep)[1] == Split(s[p + 1..], sep)[0]
      ensures |Split(s, sep)[1]| > 0 <==> p + 1 < |s| && s[p + 1] != sep
      ensures p + 1 < |s| && s[p + 1] != sep ==> Split(s, sep)[1][0] == s[p + 1]
    {
      var from := s[p..];
      assert s == s[..p] + from;
      SplitPrefix(s[..p], from, sep);
      assert from[0] == sep && from[1..] == s[p + 1..];
      assert Split(from, sep) == [""] + Split(s[p + 1..], sep);
      FirstToken(s[p + 1..], sep);
    }
  }

  /** The characters JavaScript's `\s` matches: the ECMAScript WhiteSpace and
      LineTerminator code points. Among ASCII characters they are the space
      and the five controls from tab to carriage return. */
  function IsWhitespace(c: char): (r: bool)
    ensures c <= '\U{007F}' ==> (r <==> c == ' ' || '\t' <= c <= '\r')
  {
    || c == '\t' || c == '\n' || c == '\U{000B}' || c == '\U{000C}' || c == '\r'
    || c == ' ' || c == '\U{00A0}' || c == '\U{1680}'
    || ('\U{2000}' <= c <= '\U{200A}')
    || c == '\U{2028}' || c == '\U{2029}' || c == '\U{202F}' || c == '\U{205F}'
    || c == '\U{3000}' || c == '\U{FEFF}'
  }
}
