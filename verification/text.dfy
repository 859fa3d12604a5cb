/** String primitives of Rust's `str` that the tool uses: `trim`,
    `split(char)` and `BufRead::lines`, over `seq<char>` (Unicode scalar
    values). */
module Text {

  /** `char::is_whitespace`: the characters with Unicode's White_Space property. */
  predicate IsWhitespace(c: char) {
    || ('\t' <= c && c <= '\r')
    || c == ' '
    || c == '\U{85}'
    || c == '\U{A0}'
    || c == '\U{1680}'
    || ('\U{2000}' <= c && c <= '\U{200A}')
    || c == '\U{2028}'
    || c == '\U{2029}'
    || c == '\U{202F}'
    || c == '\U{205F}'
    || c == '\U{3000}'
  }

  /** Neither the first nor the last character is whitespace. */
  predicate IsTrimmed(s: string) {
    s == [] || (!IsWhitespace(s[0]) && !IsWhitespace(s[|s| - 1]))
  }

  /** `str::trim_start`: the longest suffix of `s` that does not start with whitespace. */
  function TrimStart(s: string): (r: string)
    ensures |r| <= |s| && r == s[|s| - |r|..]
    ensures forall i :: 0 <= i < |s| - |r| ==> IsWhitespace(s[i])
    ensures r == [] || !IsWhitespace(r[0])
    decreases |s|
  {
    if s != [] && IsWhitespace(s[0]) then TrimStart(s[1..]) else s
  }

  /** `str::trim_end`: the longest prefix of `s` that does not end with whitespace. */
  function TrimEnd(s: string): (r: string)
    ensures |r| <= |s| && r == s[..|r|]
    ensures forall i :: |r| <= i < |s| ==> IsWhitespace(s[i])
    ensures r == [] || !IsWhitespace(r[|r| - 1])
    decreases |s|
  {
    if s != [] && IsWhitespace(s[|s| - 1]) then TrimEnd(s[..|s| - 1]) else s
  }

  /** `str::trim`: `s` without its leading and trailing whitespace. */
  function Trim(s: string): (r: string)
    ensures IsTrimmed(r)
    ensures |r| <= |s|
  {
    TrimEnd(TrimStart(s))
  }

  /** Where `Trim(s)` starts inside `s`. */
  function TrimOffset(s: string): nat
  {
    |s| - |TrimStart(s)|
  }

  /** `Trim(s)` is the slice of `s` that remains once whitespace is peeled
      off both ends: it sits at `TrimOffset(s)` and everything around it is
      whitespace. */
  lemma {:induction false} TrimIsSlice(s: string)
    ensures TrimOffset(s) + |Trim(s)| <= |s|
    ensures Trim(s) == s[TrimOffset(s)..TrimOffset(s) + |Trim(s)|]
    ensures forall i :: 0 <= i < TrimOffset(s) ==> IsWhitespace(s[i])
    ensures forall i :: TrimOffset(s) + |Trim(s)| <= i < |s| ==> IsWhitespace(s[i])
  {
    var t := TrimStart(s);
    var r := TrimEnd(t);
    var o := |s| - |t|;
    PrefixOfSuffix(s, o, r);
    TailIsWhitespace(s, o, t, r);
  }

  /** Whitespace cut from the back of the suffix at `o` is whitespace of `s`. */
  lemma TailIsWhitespace(s: string, o: nat, t: string, r: string)
    requires o <= |s| && t == s[o..] && |r| <= |t|
    requires forall i :: |r| <= i < |t| ==> IsWhitespace(t[i])
    ensures forall i :: o + |r| <= i < |s| ==> IsWhitespace(s[i])
  {
    forall i | o + |r| <= i < |s|
      ensures IsWhitespace(s[i])
    {
      assert s[i] == t[i - o];
    }
  }

  /** A prefix of the suffix starting at `o` is the slice starting at `o`. */
  lemma PrefixOfSuffix(s: string, o: nat, r: string)
    requires o <= |s| && |r| <= |s| - o && r == s[o..][..|r|]
    ensures r == s[o..o + |r|]
  {
  }

  /** A string without surrounding whitespace is left alone by `trim`. */
  lemma TrimFixesTrimmed(s: string)
    requires IsTrimmed(s)
    ensures Trim(s) == s
  {
  }

  /** Trimming never introduces a character that was not there. */
  lemma TrimAddsNothing(s: string, c: char)
    requires c !in s
    ensures c !in Trim(s)
  {
    TrimIsSlice(s);
  }

  // ----- split(char) and its inverse -----

  /** `s.split(sep).collect()`: the maximal `sep`-free pieces between
      occurrences of `sep`; always at least one piece (`"".split(sep)`
      yields one empty piece), and joining them back gives `s`. */
  function Split(s: string, sep: char): (parts: seq<string>)
    ensures |parts| >= 1
    ensures forall k :: 0 <= k < |parts| ==> sep !in parts[k]
    ensures Join(parts, sep) == s
    decreases |s|
  {
    if s == [] then [[]]
    else
      var rest := Split(s[1..], sep);
      assert s == [s[0]] + s[1..];
      if s[0] == sep then
        assert ([[]] + rest)[1..] == rest;
        [[]] + rest
      else
        var parts := [[s[0]] + rest[0]] + rest[1..];
        assert |rest| > 1 ==> parts[1..] == rest[1..];
        parts
  }

  /** `parts.join(sep)`. */
  function Join(parts: seq<string>, sep: char): string
    requires |parts| >= 1
    decreases |parts|
  {
    if |parts| == 1 then parts[0] else parts[0] + [sep] + Join(parts[1..], sep)
  }

  /** Splitting `p + q` where `p` holds no separator glues `p` onto the first piece of `q`. */
  lemma {:induction false} SplitSeparatorFreePrefix(p: string, q: string, sep: char)
    requires sep !in p
    ensures Split(p + q, sep) == [p + Split(q, sep)[0]] + Split(q, sep)[1..]
    decreases |p|
  {
    if p == [] {
      var parts := Split(q, sep);
      assert p + q == q;
      assert p + parts[0] == parts[0];
      assert parts == [parts[0]] + parts[1..];
    } else {
      assert (p + q)[0] == p[0];
      assert (p + q)[1..] == p[1..] + q;
      SplitSeparatorFreePrefix(p[1..], q, sep);
      assert [p[0]] + (p[1..] + Split(q, sep)[0]) == p + Split(q, sep)[0];
    }
  }

  /** Joining separator-free pieces and splitting again recovers the pieces. */
  lemma {:induction false} SplitJoin(parts: seq<string>, sep: char)
    requires |parts| >= 1
    requires forall k :: 0 <= k < |parts| ==> sep !in parts[k]
    ensures Split(Join(parts, sep), sep) == parts
    decreases |parts|
  {
    if |parts| == 1 {
      SplitSeparatorFreePrefix(parts[0], [], sep);
      assert parts[0] + [] == parts[0];
    } else {
      var tail := Join(parts[1..], sep);
      assert Join(parts, sep) == parts[0] + [sep] + tail;
      SplitJoin(parts[1..], sep);
      assert parts[0] + [sep] + tail == parts[0] + ([sep] + tail);
      SplitSeparatorFreePrefix(parts[0], [sep] + tail, sep);
      assert ([sep] + tail)[0] == sep;
      assert ([sep] + tail)[1..] == tail;
      assert Split([sep] + tail, sep) == [[]] + parts[1..];
      assert parts[0] + [] == parts[0];
      assert parts == [parts[0]] + parts[1..];
    }
  }

  /** The number of pieces is one more than the number of separators. */
  lemma {:induction false} SplitCount(s: string, sep: char)
    ensures |Split(s, sep)| == multiset(s)[sep] + 1
    decreases |s|
  {
    if s != [] {
      SplitCount(s[1..], sep);
      assert s == [s[0]] + s[1..];
      assert multiset(s) == multiset([s[0]]) + multiset(s[1..]);
    }
  }

  // ----- BufRead::lines -----

  /** Whether `line` ends in a carriage return. */
  predicate EndsWithCr(line: string) {
    |line| > 0 && line[|line| - 1] == '\r'
  }

  /** Drops one trailing carriage return, as `lines()` does for a `\r\n` ending. */
  function StripCr(line: string): string {
    if EndsWithCr(line) then line[..|line| - 1] else line
  }

  /** `BufRead::lines` on a text: the pieces between `'\n'`s, each piece
      that was terminated by `'\n'` losing one trailing `'\r'`; a final
      unterminated piece is kept as is unless it is empty. */
  function Lines(text: string): (lines: seq<string>)
    ensures forall k :: 0 <= k < |lines| ==> '\n' !in lines[k]
  {
    var parts := Split(text, '\n');
    var n := |parts| - 1;
    seq(n, k requires 0 <= k < n => StripCr(parts[k])) + (if parts[n] == [] then [] else [parts[n]])
  }

  /** The text a writer produces by emitting each line followed by `'\n'`. */
  function Terminated(lines: seq<string>): string
    decreases |lines|
  {
    if lines == [] then [] else lines[0] + "\n" + Terminated(lines[1..])
  }

  /** Appending one more line to a newline-terminated text. */
  lemma {:induction false} TerminatedAppend(lines: seq<string>, line: string)
    ensures Terminated(lines + [line]) == Terminated(lines) + line + "\n"
    decreases |lines|
  {
    if lines == [] {
      assert lines + [line] == [line];
      assert [line][1..] == [];
    } else {
      assert (lines + [line])[1..] == lines[1..] + [line];
      TerminatedAppend(lines[1..], line);
    }
  }

  /** A newline-terminated text followed by `tail` is the join of its
      lines and `tail` as the final piece. */
  lemma {:induction false} TerminatedIsJoin(lines: seq<string>, tail: string)
    ensures Terminated(lines) + tail == Join(lines + [tail], '\n')
    decreases |lines|
  {
    if lines == [] {
      assert lines + [tail] == [tail];
    } else {
      assert (lines + [tail])[1..] == lines[1..] + [tail];
      TerminatedIsJoin(lines[1..], tail);
    }
  }

  /** Splitting a newline-terminated text followed by a newline-free `tail`
      at its newlines gives its lines and then `tail`. */
  lemma SplitTerminated(lines: seq<string>, tail: string)
    requires forall k :: 0 <= k < |lines| ==> '\n' !in lines[k]
    requires '\n' !in tail
    ensures Split(Terminated(lines) + tail, '\n') == lines + [tail]
  {
    TerminatedIsJoin(lines, tail);
    SplitJoin(lines + [tail], '\n');
  }

  /** `lines()` of a text whose pieces are `lines` and then `last`: the
      lines, and `last` only if it is not empty. */
  lemma LinesOfPieces(text: string, lines: seq<string>, last: string)
    requires Split(text, '\n') == lines + [last]
    requires forall k :: 0 <= k < |lines| ==> !EndsWithCr(lines[k])
    ensures Lines(text) == lines + (if last == [] then [] else [last])
  {
    var parts := Split(text, '\n');
    var n := |lines|;
    assert parts[n] == last;
    var body := seq(n, k requires 0 <= k < n => StripCr(parts[k]));
    forall k | 0 <= k < n
      ensures body[k] == lines[k]
    {
      assert parts[k] == lines[k];
    }
    assert body == lines;
  }

  /** `lines()` reads back exactly what was written line by line, provided
      no line contains a newline or ends in a carriage return. */
  lemma LinesOfTerminated(lines: seq<string>)
    requires forall k :: 0 <= k < |lines| ==> '\n' !in lines[k] && !EndsWithCr(lines[k])
    ensures Lines(Terminated(lines)) == lines
  {
    LinesOfCutOff(lines, []);
    assert Terminated(lines) + [] == Terminated(lines);
    assert lines + [] == lines;
  }

  /** A text whose last line was cut off before its newline: `lines()`
      reads the complete lines and then the cut-off start, if any, as one
      more line, carriage return and all. */
  lemma LinesOfCutOff(lines: seq<string>, tail: string)
    requires forall k :: 0 <= k < |lines| ==> '\n' !in lines[k] && !EndsWithCr(lines[k])
    requires '\n' !in tail
    ensures Lines(Terminated(lines) + tail) == lines + (if tail == [] then [] else [tail])
  {
    SplitTerminated(lines, tail);
    LinesOfPieces(Terminated(lines) + tail, lines, tail);
  }
}
