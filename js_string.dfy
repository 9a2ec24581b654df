/**
 * The few JavaScript string operations the kanban codec relies on, with their
 * JavaScript meaning: `trim`, `trimStart`, `trimEnd`, `startsWith`, `endsWith`,
 * `substring(n)`, `split('\n')`, `join`, `toLowerCase` and the regular-expression
 * classes `\s` and `.`.
 */
module JsString {

  /** JavaScript's `\s`, which is also the set `String.prototype.trim` removes. */
  predicate IsWhitespace(c: char) {
    || c == '\t' || c == '\n' || c == '\U{B}' || c == '\U{C}' || c == '\r' || c == ' '
    || c == '\U{A0}' || c == '\U{1680}' || ('\U{2000}' <= c <= '\U{200A}')
    || c == '\U{2028}' || c == '\U{2029}' || c == '\U{202F}' || c == '\U{205F}'
    || c == '\U{3000}' || c == '\U{FEFF}'
  }

  /** The characters a regular-expression `.` does not match. */
  predicate IsLineTerminator(c: char) {
    c == '\n' || c == '\r' || c == '\U{2028}' || c == '\U{2029}'
  }

  /** `s` fits on one line: `.*` matches all of it. */
  predicate NoLineBreak(s: string) {
    forall i :: 0 <= i < |s| ==> !IsLineTerminator(s[i])
  }

  predicate AllWhitespace(s: string) {
    forall i :: 0 <= i < |s| ==> IsWhitespace(s[i])
  }

  /** Neither end of `s` is white space. */
  predicate IsTrimmed(s: string) {
    s == [] || (!IsWhitespace(s[0]) && !IsWhitespace(s[|s| - 1]))
  }

  predicate StartsWith(s: string, prefix: string) {
    |prefix| <= |s| && s[..|prefix|] == prefix
  }

  /** A prefix of a prefix is a prefix. */
  lemma StartsWithTrans(s: string, p: string, q: string)
    requires StartsWith(s, p) && StartsWith(p, q)
    ensures StartsWith(s, q)
  {
    assert s[..|q|] == s[..|p|][..|q|];
  }

  predicate EndsWith(s: string, suffix: string) {
    |suffix| <= |s| && s[|s| - |suffix|..] == suffix
  }

  /** `s.trimStart()`: drops the longest all-white-space prefix. */
  function TrimStart(s: string): (r: string)
    ensures |r| <= |s| && r == s[|s| - |r|..]
    ensures r == [] || !IsWhitespace(r[0])
  {
    if |s| > 0 && IsWhitespace(s[0]) then TrimStart(s[1..]) else s
  }

  /** `s.trimEnd()`: drops the longest all-white-space suffix. */
  function TrimEnd(s: string): (r: string)
    ensures |r| <= |s| && r == s[..|r|]
    ensures r == [] || !IsWhitespace(r[|r| - 1])
  {
    if |s| > 0 && IsWhitespace(s[|s| - 1]) then TrimEnd(s[..|s| - 1]) else s
  }

  /** What `trimStart` drops is white space. */
  lemma {:induction false} TrimStartDropsWhitespace(s: string)
    ensures AllWhitespace(s[..|s| - |TrimStart(s)|])
  {
    if |s| > 0 && IsWhitespace(s[0]) {
      var t := s[1..];
      TrimStartDropsWhitespace(t);
      var n := |s| - |TrimStart(s)|;
      assert n == 1 + (|t| - |TrimStart(t)|);
      ConsPrefix(s, n);
      WhitespaceCons(s[0], t[..n - 1]);
    }
  }

  lemma ConsPrefix<T>(s: seq<T>, n: nat)
    requires 1 <= n <= |s|
    ensures s[..n] == [s[0]] + s[1..][..n - 1]
  {
  }

  lemma WhitespaceCons(c: char, w: string)
    requires IsWhitespace(c) && AllWhitespace(w)
    ensures AllWhitespace([c] + w)
  {
    forall i | 0 < i <= |w| ensures IsWhitespace(([c] + w)[i]) {
      assert ([c] + w)[i] == w[i - 1];
    }
  }

  /** What `trimEnd` drops is white space. */
  lemma {:induction false} TrimEndDropsWhitespace(s: string)
    ensures AllWhitespace(s[|TrimEnd(s)|..])
  {
    if |s| > 0 && IsWhitespace(s[|s| - 1]) {
      TrimEndDropsWhitespace(s[..|s| - 1]);
      assert s[|TrimEnd(s)|..] == s[..|s| - 1][|TrimEnd(s[..|s| - 1])|..] + [s[|s| - 1]];
    }
  }

  /** `s.trim()`. */
  function Trim(s: string): (r: string)
    ensures IsTrimmed(r)
  {
    TrimEnd(TrimStart(s))
  }

  /** The length of the white-space run `^\s*` matches at the start of `s`. */
  function LeadingWhitespace(s: string): (n: nat)
    ensures n <= |s| && s[n..] == TrimStart(s)
    ensures n == |s| || !IsWhitespace(s[n])
  {
    |s| - |TrimStart(s)|
  }

  /** `s.substring(start)`: a start past the end gives the empty string. */
  function Substring(s: string, start: nat): (r: string)
    ensures start <= |s| ==> r == s[start..]
    ensures start > |s| ==> r == ""
  {
    if start <= |s| then s[start..] else ""
  }

  /** `parts.join(sep)`. */
  function Join(parts: seq<string>, sep: string): string
  {
    if |parts| == 0 then ""
    else if |parts| == 1 then parts[0]
    else parts[0] + sep + Join(parts[1..], sep)
  }

  /** `s.split(sep)` for a one-character separator (see `SplitSpec`). */
  function Split(s: string, sep: char): (parts: seq<string>)
    ensures |parts| >= 1
  {
    if s == [] then [""]
    else
      var rest := Split(s[1..], sep);
      if s[0] == sep then [""] + rest
      else [[s[0]] + rest[0]] + rest[1..]
  }

  /** No part of `split` holds the separator, and joining the parts gives `s` back. */
  lemma SplitSpec(s: string, sep: char)
    ensures Join(Split(s, sep), [sep]) == s
    ensures forall k :: 0 <= k < |Split(s, sep)| ==> sep !in Split(s, sep)[k]
  {
    SplitJoin(s, sep);
    SplitParts(s, sep);
  }

  lemma {:induction false} SplitJoin(s: string, sep: char)
    ensures Join(Split(s, sep), [sep]) == s
  {
    if s != [] {
      SplitJoin(s[1..], sep);
      var rest := Split(s[1..], sep);
      var parts := Split(s, sep);
      if s[0] == sep {
        assert parts == [""] + rest;
        assert parts[1..] == rest;
        assert Join(parts, [sep]) == "" + [sep] + Join(rest, [sep]);
        assert s == [sep] + s[1..];
      } else if |rest| == 1 {
        assert parts == [[s[0]] + rest[0]];
        assert s == [s[0]] + s[1..];
      } else {
        assert parts[1..] == rest[1..];
        assert Join(parts, [sep]) == ([s[0]] + rest[0]) + [sep] + Join(rest[1..], [sep]);
        assert Join(rest, [sep]) == rest[0] + [sep] + Join(rest[1..], [sep]);
        assert s == [s[0]] + s[1..];
      }
    }
  }

  lemma {:induction false} SplitParts(s: string, sep: char)
    ensures forall k :: 0 <= k < |Split(s, sep)| ==> sep !in Split(s, sep)[k]
  {
    if s != [] {
      SplitParts(s[1..], sep);
      var rest := Split(s[1..], sep);
      var parts := Split(s, sep);
      if s[0] == sep {
        assert forall k :: 1 <= k < |parts| ==> parts[k] == rest[k - 1];
      } else {
        assert forall k :: 1 <= k < |parts| ==> parts[k] == rest[k];
        assert sep !in rest[0];
      }
    }
  }

  /** Lines each followed by a newline: what `text += line + '\n'` builds, line by line. */
  function Unlines(lines: seq<string>): string
  {
    if lines == [] then "" else lines[0] + "\n" + Unlines(lines[1..])
  }

  /** Every occurrence of `\r\n` becomes `\n` (JavaScript's `replace(/\r\n/g, '\n')`). */
  function ReplaceCrLf(s: string): (r: string)
    ensures |r| <= |s|
  {
    if |s| >= 2 && s[0] == '\r' && s[1] == '\n' then "\n" + ReplaceCrLf(s[2..])
    else if |s| == 0 then ""
    else [s[0]] + ReplaceCrLf(s[1..])
  }

  /** Every remaining `\r` becomes `\n` (JavaScript's `replace(/\r/g, '\n')`). */
  function ReplaceCr(s: string): (r: string)
    ensures |r| == |s|
    ensures '\r' !in r
  {
    if |s| == 0 then "" else [if s[0] == '\r' then '\n' else s[0]] + ReplaceCr(s[1..])
  }

  /** The line-ending normalisation both parsers apply before splitting into lines. */
  function NormalizeNewlines(s: string): string
  {
    ReplaceCr(ReplaceCrLf(s))
  }

  /** The lines both parsers scan. */
  function Lines(content: string): (lines: seq<string>)
    ensures |lines| >= 1
    ensures forall k :: 0 <= k < |lines| ==> '\n' !in lines[k] && '\r' !in lines[k]
  {
    var normal := NormalizeNewlines(content);
    var lines := Split(normal, '\n');
    SplitSpec(normal, '\n');
    assert forall k :: 0 <= k < |lines| ==> '\r' !in lines[k] by {
      forall k | 0 <= k < |lines| ensures '\r' !in lines[k] {
        NoCharInJoinedPart(lines, k, '\r', "\n");
      }
    }
    lines
  }

  function LowerChar(c: char): char {
    if 'A' <= c <= 'Z' then (c as int + 32) as char else c
  }

  /**
   * `s.toLowerCase()` on ASCII letters. The codec only compares its result with
   * "true" and "done"; no character outside ASCII lower-cases to one of their letters.
   */
  function ToLowerAscii(s: string): (r: string)
    ensures |r| == |s|
  {
    if s == [] then "" else [LowerChar(s[0])] + ToLowerAscii(s[1..])
  }

  // ---------------------------------------------------------------------------
  // Lemmas
  // ---------------------------------------------------------------------------

  /** A character absent from a joined string is absent from every part. */
  lemma {:induction false} NoCharInJoinedPart(parts: seq<string>, k: nat, c: char, sep: string)
    requires k < |parts| && c !in Join(parts, sep)
    ensures c !in parts[k]
  {
    if |parts| > 1 {
      assert Join(parts, sep) == parts[0] + sep + Join(parts[1..], sep);
      if k > 0 {
        NoCharInJoinedPart(parts[1..], k - 1, c, sep);
      }
    }
  }

  /** Splitting a separator-free part followed by the separator and more text yields that part first. */
  lemma {:induction false} SplitAfterPart(part: string, sep: char, tail: string)
    requires sep !in part
    ensures Split(part + [sep] + tail, sep) == [part] + Split(tail, sep)
  {
    if part == [] {
      assert part + [sep] + tail == [sep] + tail;
      assert ([sep] + tail)[1..] == tail;
    } else {
      var s := part + [sep] + tail;
      assert s[1..] == part[1..] + [sep] + tail;
      SplitAfterPart(part[1..], sep, tail);
      assert [s[0]] + part[1..] == part;
    }
  }

  /** `split` undoes `join` when no part holds the separator. */
  lemma {:induction false} SplitOfJoin(parts: seq<string>, sep: char)
    requires |parts| >= 1
    requires forall k :: 0 <= k < |parts| ==> sep !in parts[k]
    ensures Split(Join(parts, [sep]), sep) == parts
  {
    if |parts| == 1 {
      SplitNoSeparator(parts[0], sep);
    } else {
      SplitAfterPart(parts[0], sep, Join(parts[1..], [sep]));
      SplitOfJoin(parts[1..], sep);
      assert parts == [parts[0]] + parts[1..];
    }
  }

  /** A string without the separator splits into itself. */
  lemma {:induction false} SplitNoSeparator(s: string, sep: char)
    requires sep !in s
    ensures Split(s, sep) == [s]
  {
    if s != [] {
      SplitNoSeparator(s[1..], sep);
      assert [s[0]] + s[1..] == s;
    }
  }

  /** Splitting newline-terminated lines gives the lines back, plus the empty tail. */
  lemma {:induction false} SplitUnlines(lines: seq<string>)
    requires forall k :: 0 <= k < |lines| ==> '\n' !in lines[k]
    ensures Split(Unlines(lines), '\n') == lines + [""]
  {
    if lines != [] {
      SplitAfterPart(lines[0], '\n', Unlines(lines[1..]));
      SplitUnlines(lines[1..]);
      assert lines == [lines[0]] + lines[1..];
    }
  }

  lemma {:induction false} UnlinesAppend(a: seq<string>, b: seq<string>)
    ensures Unlines(a + b) == Unlines(a) + Unlines(b)
  {
    if a != [] {
      assert (a + b)[1..] == a[1..] + b;
      UnlinesAppend(a[1..], b);
    } else {
      assert a + b == b;
    }
  }

  lemma {:induction false} UnlinesNoChar(lines: seq<string>, c: char)
    requires c != '\n'
    requires forall k :: 0 <= k < |lines| ==> c !in lines[k]
    ensures c !in Unlines(lines)
  {
    if lines != [] {
      UnlinesNoChar(lines[1..], c);
    }
  }

  lemma {:induction false} ReplaceCrLfIdentity(s: string)
    requires '\r' !in s
    ensures ReplaceCrLf(s) == s
  {
    if |s| > 0 {
      ReplaceCrLfIdentity(s[1..]);
      assert s == [s[0]] + s[1..];
    }
  }

  lemma {:induction false} ReplaceCrIdentity(s: string)
    requires '\r' !in s
    ensures ReplaceCr(s) == s
  {
    if |s| > 0 {
      ReplaceCrIdentity(s[1..]);
      assert s == [s[0]] + s[1..];
    }
  }

  /** Text without carriage returns splits into exactly the lines it was built from. */
  lemma LinesOfUnlines(lines: seq<string>)
    requires forall k :: 0 <= k < |lines| ==> '\n' !in lines[k] && '\r' !in lines[k]
    ensures Lines(Unlines(lines)) == lines + [""]
  {
    UnlinesNoChar(lines, '\r');
    ReplaceCrLfIdentity(Unlines(lines));
    ReplaceCrIdentity(Unlines(lines));
    SplitUnlines(lines);
  }

  /** `trimStart` of white space followed by a non-blank start gives that start. */
  lemma {:induction false} TrimStartAfterWhitespace(ws: string, rest: string)
    requires AllWhitespace(ws)
    requires rest == [] || !IsWhitespace(rest[0])
    ensures TrimStart(ws + rest) == rest
  {
    if ws == [] {
      assert ws + rest == rest;
    } else {
      assert (ws + rest)[0] == ws[0];
      assert (ws + rest)[1..] == ws[1..] + rest;
      TrimStartAfterWhitespace(ws[1..], rest);
    }
  }

  /** `trimEnd` of a non-blank end followed by white space gives that end. */
  lemma TrimEndBeforeWhitespace(rest: string, ws: string)
    requires AllWhitespace(ws)
    requires rest == [] || !IsWhitespace(rest[|rest| - 1])
    ensures TrimEnd(rest + ws) == rest
  {
    var s := rest + ws;
    var r := TrimEnd(s);
    TrimEndDropsWhitespace(s);
    assert r == s[..|rest|];
  }

  /** `trim` of a trimmed core padded with white space gives the core. */
  lemma TrimOfPadded(before: string, core: string, after: string)
    requires AllWhitespace(before) && AllWhitespace(after) && IsTrimmed(core)
    ensures Trim(before + core + after) == core
  {
    if core == [] {
      assert before + core + after == before + after;
      TrimStartAllWhitespace(before + after);
    } else {
      assert before + core + after == before + (core + after);
      TrimStartAfterWhitespace(before, core + after);
      TrimEndBeforeWhitespace(core, after);
    }
  }

  /** `trim` drops one space put before a trimmed string. */
  lemma TrimOfSpaced(s: string)
    requires IsTrimmed(s)
    ensures Trim(" " + s) == s
  {
    TrimOfPadded(" ", s, "");
    assert " " + s + "" == " " + s;
  }

  lemma TrimStartAllWhitespace(s: string)
    requires AllWhitespace(s)
    ensures TrimStart(s) == ""
  {
  }

  /** A trimmed string is its own `trim`. */
  lemma TrimOfTrimmed(s: string)
    requires IsTrimmed(s)
    ensures Trim(s) == s
  {
    TrimOfPadded("", s, "");
    assert "" + s + "" == s;
  }

  /** Trimming twice is trimming once. */
  lemma TrimIdempotent(s: string)
    ensures Trim(Trim(s)) == Trim(s)
  {
    TrimOfTrimmed(Trim(s));
  }

  /** `trimEnd` does not reach past a prefix that ends in a non-white-space character. */
  lemma {:induction false} TrimEndAfterPrefix(p: string, x: string)
    requires p == [] || !IsWhitespace(p[|p| - 1])
    ensures TrimEnd(p + x) == p + TrimEnd(x)
    decreases |x|
  {
    if x == [] {
      assert p + x == p;
    } else if IsWhitespace(x[|x| - 1]) {
      assert (p + x)[..|p + x| - 1] == p + x[..|x| - 1];
      TrimEndAfterPrefix(p, x[..|x| - 1]);
    } else {
      assert (p + x)[|p + x| - 1] == x[|x| - 1];
    }
  }

  /** `trimStart` does not reach past a suffix that starts with a non-white-space character. */
  lemma {:induction false} TrimStartBeforeSuffix(x: string, q: string)
    requires q == [] || !IsWhitespace(q[0])
    ensures TrimStart(x + q) == TrimStart(x) + q
    decreases |x|
  {
    if x == [] {
      assert x + q == q;
    } else if IsWhitespace(x[0]) {
      assert (x + q)[1..] == x[1..] + q;
      TrimStartBeforeSuffix(x[1..], q);
    } else {
      assert (x + q)[0] == x[0];
    }
  }

  /** A string with a non-white-space character does not trim to nothing. */
  lemma TrimNotEmpty(s: string, i: nat)
    requires i < |s| && !IsWhitespace(s[i])
    ensures Trim(s) != ""
  {
    var t := TrimStart(s);
    var n := |s| - |t|;
    TrimStartDropsWhitespace(s);
    TrimEndDropsWhitespace(t);
    assert n <= i;
    assert t[i - n] == s[i];
    var r := TrimEnd(t);
    assert |r| > i - n;
  }

  /** A string that is all white space trims to nothing. */
  lemma TrimAllWhitespace(s: string)
    requires AllWhitespace(s)
    ensures Trim(s) == ""
  {
    TrimStartAllWhitespace(s);
  }

  /** A string that differs from `prefix` at some position does not start with it. */
  lemma DiffersAt(s: string, prefix: string, i: nat)
    requires i < |s| && i < |prefix| && s[i] != prefix[i]
    ensures !StartsWith(s, prefix)
  {
    if |prefix| <= |s| {
      assert s[..|prefix|][i] == s[i];
    }
  }

  /** White space before a non-blank start: `trim` keeps that start. */
  lemma TrimKeepsHead(ws: string, core: string)
    requires AllWhitespace(ws) && core != [] && !IsWhitespace(core[0])
    ensures TrimStart(ws + core) == core
    ensures Trim(ws + core) == TrimEnd(core)
    ensures Trim(ws + core) != [] && Trim(ws + core)[0] == core[0]
    ensures LeadingWhitespace(ws + core) == |ws|
  {
    TrimStartAfterWhitespace(ws, core);
    TrimEndDropsWhitespace(core);
    assert core[|TrimEnd(core)|..] != [] ==> core[|TrimEnd(core)|..][0] == core[|TrimEnd(core)|];
  }

  /** `trimEnd` never cuts into a prefix whose last character is not white space. */
  lemma TrimEndKeepsPrefix(s: string, prefix: string)
    requires StartsWith(s, prefix)
    requires prefix != [] && !IsWhitespace(prefix[|prefix| - 1])
    ensures StartsWith(TrimEnd(s), prefix)
  {
    var r := TrimEnd(s);
    TrimEndDropsWhitespace(s);
    assert s[|prefix| - 1] == prefix[|prefix| - 1];
    assert |r| >= |prefix|;
    assert r[..|prefix|] == s[..|prefix|];
  }

  /** `trim` keeps a prefix that starts and ends with non-white-space characters. */
  lemma TrimKeepsPrefix(s: string, prefix: string)
    requires StartsWith(s, prefix)
    requires prefix != [] && !IsWhitespace(prefix[0]) && !IsWhitespace(prefix[|prefix| - 1])
    ensures StartsWith(Trim(s), prefix)
  {
    assert s[0] == prefix[0];
    TrimStartAfterWhitespace("", s);
    assert "" + s == s;
    TrimEndKeepsPrefix(s, prefix);
  }
}
