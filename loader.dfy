/**
 * The line rule of the program loader (ls8/cpu.py:32-42): each line is cut
 * at its first '#', stripped of surrounding whitespace, skipped when
 * nothing is left and otherwise read as a base-2 number and given the next
 * memory address. Opening and reading the file is not modelled: a program
 * is the sequence of its lines.
 */
module Loader {

  /** The characters Python's str.strip() removes by default. */
  predicate IsSpace(c: char) {
    || '\t' <= c <= '\r' || '\U{1C}' <= c <= ' ' || c == '\U{85}' || c == '\U{A0}'
    || c == '\U{1680}' || '\U{2000}' <= c <= '\U{200A}' || c == '\U{2028}' || c == '\U{2029}'
    || c == '\U{202F}' || c == '\U{205F}' || c == '\U{3000}'
  }

  /** Position of the first '#' in a line, or its length when it has none. */
  function CommentStart(line: string): (i: nat)
    ensures i <= |line|
  {
    if line == [] || line[0] == '#' then 0 else 1 + CommentStart(line[1..])
  }

  /** The part of a line before its first '#' (`line.split("#")[0]`). */
  function CodePart(line: string): (r: string)
    ensures r <= line && '#' !in r
    ensures |r| < |line| ==> line[|r|] == '#'
  {
    CommentStartIsFirst(line);
    line[..CommentStart(line)]
  }

  /** Where the text of s starts: the length of its leading whitespace. */
  function TextStart(s: string): (i: nat)
    ensures i <= |s|
  {
    if s != [] && IsSpace(s[0]) then 1 + TextStart(s[1..]) else 0
  }

  /** Where the text of s ends: the start of its trailing whitespace. */
  function TextEnd(s: string): (j: nat)
    ensures j <= |s|
  {
    if s != [] && IsSpace(s[|s| - 1]) then TextEnd(s[..|s| - 1]) else |s|
  }

  /** `str.strip()`: the text between the leading and the trailing whitespace. */
  function Strip(s: string): (r: string)
    ensures |r| <= |s|
    ensures r != [] ==> !IsSpace(r[0]) && !IsSpace(r[|r| - 1])
  {
    var t := s[TextStart(s)..];
    TextEndIsLast(t);
    TextStartIsFirst(s);
    t[..TextEnd(t)]
  }

  predicate IsBinary(s: string) {
    forall k :: 0 <= k < |s| ==> s[k] == '0' || s[k] == '1'
  }

  function Pow2(n: nat): (r: nat)
    ensures r >= 1
  {
    if n == 0 then 1 else 2 * Pow2(n - 1)
  }

  /**
   * `int(s, 2)` on a string of binary digits, most significant first. It
   * is only applied to strings with IsBinary; every character other than
   * '1' counts as a zero digit.
   */
  function ParseBinary(s: string): (n: nat)
    ensures n < Pow2(|s|)
  {
    if s == [] then 0
    else 2 * ParseBinary(s[..|s| - 1]) + (if s[|s| - 1] == '1' then 1 else 0)
  }

  /** The w-digit binary numeral of n, the form program files are written in. */
  function Bits(n: nat, w: nat): (s: string)
    ensures |s| == w && IsBinary(s)
  {
    if w == 0 then [] else Bits(n / 2, w - 1) + [if n % 2 == 0 then '0' else '1']
  }

  /** The text of a line that the loader looks at. */
  function Code(line: string): string {
    Strip(CodePart(line))
  }

  /** A line the loader skips: blank or comment-only. */
  predicate Blank(line: string) {
    Code(line) == []
  }

  /** A line the loader accepts: blank, or binary digits once cut and stripped. */
  predicate WellFormed(line: string) {
    IsBinary(Code(line))
  }

  predicate AllWellFormed(lines: seq<string>) {
    forall i :: 0 <= i < |lines| ==> WellFormed(lines[i])
  }

  /** What one line contributes to memory: nothing, or one value. */
  function Entry(line: string): (r: seq<int>)
    ensures |r| == if Blank(line) then 0 else 1
  {
    if Blank(line) then [] else [ParseBinary(Code(line))]
  }

  /** The parts joined in order. */
  function Concat(parts: seq<seq<int>>): seq<int> {
    if parts == [] then [] else Concat(parts[..|parts| - 1]) + parts[|parts| - 1]
  }

  /** f applied to each element, in order. */
  function Apply<A, B>(f: A -> B, s: seq<A>): (r: seq<B>)
    ensures |r| == |s|
  {
    if s == [] then [] else Apply(f, s[..|s| - 1]) + [f(s[|s| - 1])]
  }

  /**
   * The memory image a program's lines load, from address 0 upward: the
   * entries of the lines in order. No line takes more than one address.
   */
  function Program(lines: seq<string>): (r: seq<int>)
    ensures |r| <= |lines|
  {
    EntriesLength(lines);
    Concat(Apply(Entry, lines))
  }

  /** The number of lines that are not blank. */
  function NonBlank(lines: seq<string>): (n: nat)
    ensures n <= |lines|
  {
    if lines == [] then 0 else NonBlank(lines[..|lines| - 1]) + (if Blank(lines[|lines| - 1]) then 0 else 1)
  }

  /** Reading the numeral of n back gives n. */
  lemma {:induction false} ParseBits(n: nat, w: nat)
    requires n < Pow2(w)
    ensures ParseBinary(Bits(n, w)) == n
  {
    if w > 0 {
      var s := Bits(n, w);
      assert s[..w - 1] == Bits(n / 2, w - 1);
      ParseBits(n / 2, w - 1);
    }
  }

  /** Writing back what was read gives the same digits. */
  lemma {:induction false} BitsParse(s: string)
    requires IsBinary(s)
    ensures Bits(ParseBinary(s), |s|) == s
  {
    if s != [] {
      var init := s[..|s| - 1];
      var n := ParseBinary(s);
      assert n / 2 == ParseBinary(init) && n % 2 == (if s[|s| - 1] == '1' then 1 else 0);
      BitsParse(init);
      assert s == init + [s[|s| - 1]];
    }
  }

  /** Joining two runs of parts joins their images. */
  lemma {:induction false} ConcatAppend(a: seq<seq<int>>, b: seq<seq<int>>)
    ensures Concat(a + b) == Concat(a) + Concat(b)
  {
    if b == [] {
      assert a + b == a;
    } else {
      var init, last := b[..|b| - 1], b[|b| - 1];
      assert (a + b)[..|a + b| - 1] == a + init;
      assert (a + b)[|a + b| - 1] == last;
      ConcatAppend(a, init);
      assert Concat(b) == Concat(init) + last;
    }
  }

  /** Applying f to two runs one after the other applies it to both. */
  lemma {:induction false} ApplyAppend<A, B>(f: A -> B, a: seq<A>, b: seq<A>)
    ensures Apply(f, a + b) == Apply(f, a) + Apply(f, b)
  {
    if b == [] {
      assert a + b == a;
    } else {
      assert (a + b)[..|a + b| - 1] == a + b[..|b| - 1];
      ApplyAppend(f, a, b[..|b| - 1]);
    }
  }

  /** The entries of the lines hold one value per non-blank line. */
  lemma {:induction false} EntriesLength(lines: seq<string>)
    ensures |Concat(Apply(Entry, lines))| == NonBlank(lines)
  {
    if lines != [] {
      var init := lines[..|lines| - 1];
      var parts := Apply(Entry, init);
      EntriesLength(init);
      assert (parts + [Entry(lines[|lines| - 1])])[..|parts|] == parts;
    }
  }

  /** Loading two halves of a file one after the other loads the whole file. */
  lemma ProgramConcat(xs: seq<string>, ys: seq<string>)
    ensures Program(xs + ys) == Program(xs) + Program(ys)
  {
    ApplyAppend(Entry, xs, ys);
    ConcatAppend(Apply(Entry, xs), Apply(Entry, ys));
  }

  /**
   * The loader's loop, one line at a time: the first i + 1 lines load what
   * the first i load followed by line i's entry, and any first lines load a
   * prefix of the whole image.
   */
  lemma ProgramStep(lines: seq<string>, i: nat)
    requires i < |lines|
    ensures Program(lines[..i + 1]) == Program(lines[..i]) + Entry(lines[i])
    ensures Program(lines[..i + 1]) <= Program(lines)
  {
    assert lines[..i + 1] == lines[..i] + [lines[i]];
    ProgramSnoc(lines[..i], lines[i]);
    ProgramConcat(lines[..i + 1], lines[i + 1..]);
    assert lines[..i + 1] + lines[i + 1..] == lines;
  }

  /** A one-line program loads that line's entry. */
  lemma ProgramOne(line: string)
    ensures Program([line]) == Entry(line)
  {
    var e := Entry(line);
    assert [line][..0] == [];
    assert Apply(Entry, [line]) == [e];
    assert [e][..0] == [];
    assert Concat([e]) == Concat([]) + e;
    assert [] + e == e;
  }

  /** A blank or comment-only line consumes no address. */
  lemma BlankTakesNoAddress(xs: seq<string>, line: string, ys: seq<string>)
    requires Blank(line)
    ensures Program(xs + [line] + ys) == Program(xs + ys)
  {
    ProgramOne(line);
    ProgramConcat(xs, [line]);
    ProgramConcat(xs + [line], ys);
    ProgramConcat(xs, ys);
  }

  /**
   * A non-blank line is stored at the address equal to the number of
   * values the lines before it load, which is the number of non-blank lines
   * before it, and holds the value of its digits.
   */
  lemma LineAddress(lines: seq<string>, i: nat)
    requires i < |lines| && !Blank(lines[i])
    ensures |Program(lines[..i])| == NonBlank(lines[..i]) < |Program(lines)|
    ensures Program(lines)[NonBlank(lines[..i])] == ParseBinary(Code(lines[i]))
  {
    ProgramStep(lines, i);
    ProgramCountsNonBlank(lines[..i]);
  }

  /** CommentStart finds the first '#': none comes before it. */
  lemma {:induction false} CommentStartIsFirst(line: string)
    ensures forall k :: 0 <= k < CommentStart(line) ==> line[k] != '#'
    ensures CommentStart(line) < |line| ==> line[CommentStart(line)] == '#'
  {
    if line != [] && line[0] != '#' {
      CommentStartIsFirst(line[1..]);
    }
  }

  /** Everything before TextStart is whitespace, and the character there is not. */
  lemma {:induction false} TextStartIsFirst(s: string)
    ensures forall k :: 0 <= k < TextStart(s) ==> IsSpace(s[k])
    ensures TextStart(s) < |s| ==> !IsSpace(s[TextStart(s)])
  {
    if s != [] && IsSpace(s[0]) {
      TextStartIsFirst(s[1..]);
    }
  }

  /** Everything from TextEnd on is whitespace, and the character before it is not. */
  lemma {:induction false} TextEndIsLast(s: string)
    ensures forall k :: TextEnd(s) <= k < |s| ==> IsSpace(s[k])
    ensures 0 < TextEnd(s) ==> !IsSpace(s[TextEnd(s) - 1])
  {
    if s != [] && IsSpace(s[|s| - 1]) {
      TextEndIsLast(s[..|s| - 1]);
    }
  }

  /**
   * Strip removes exactly the surrounding whitespace: what it keeps is a
   * slice of s that neither starts nor ends with whitespace, everything
   * around that slice is whitespace, and it is empty only for a string that
   * is all whitespace.
   */
  lemma StripIsTrim(s: string)
    ensures TextStart(s) + |Strip(s)| <= |s|
    ensures Strip(s) == s[TextStart(s)..TextStart(s) + |Strip(s)|]
    ensures forall k :: 0 <= k < TextStart(s) ==> IsSpace(s[k])
    ensures forall k :: TextStart(s) + |Strip(s)| <= k < |s| ==> IsSpace(s[k])
    ensures Strip(s) != [] ==> !IsSpace(Strip(s)[0]) && !IsSpace(Strip(s)[|Strip(s)| - 1])
    ensures Strip(s) == [] <==> forall k :: 0 <= k < |s| ==> IsSpace(s[k])
  {
    var i := TextStart(s);
    var t := s[i..];
    TextStartIsFirst(s);
    TextEndIsLast(t);
  }

  /** CommentStart skips a comment-free prefix. */
  lemma {:induction false} CommentStartOf(code: string, rest: string)
    requires '#' !in code
    ensures CommentStart(code + rest) == |code| + (if rest == [] || rest[0] == '#' then 0 else CommentStart(rest))
  {
    if code != [] {
      assert (code + rest)[1..] == code[1..] + rest;
      CommentStartOf(code[1..], rest);
    } else {
      assert code + rest == rest;
    }
  }

  /** The code part of a line is exactly what precedes its first '#'. */
  lemma CodePartOf(code: string, rest: string)
    requires '#' !in code
    ensures CodePart(code + "#" + rest) == code
  {
    CommentStartOf(code, "#" + rest);
    assert code + "#" + rest == code + ("#" + rest);
  }

  /** Leading whitespace followed by text: the text starts after it. */
  lemma {:induction false} TextStartOf(pre: string, t: string)
    requires forall k :: 0 <= k < |pre| ==> IsSpace(pre[k])
    requires t == [] || !IsSpace(t[0])
    ensures TextStart(pre + t) == |pre|
  {
    if pre != [] {
      assert (pre + t)[1..] == pre[1..] + t;
      TextStartOf(pre[1..], t);
    } else {
      assert pre + t == t;
    }
  }

  /** Text followed by trailing whitespace: the text ends before it. */
  lemma {:induction false} TextEndOf(t: string, post: string)
    requires forall k :: 0 <= k < |post| ==> IsSpace(post[k])
    requires t == [] || !IsSpace(t[|t| - 1])
    ensures TextEnd(t + post) == |t|
  {
    if post != [] {
      assert (t + post)[..|t + post| - 1] == t + post[..|post| - 1];
      TextEndOf(t, post[..|post| - 1]);
    } else {
      assert t + post == t;
    }
  }

  /**
   * The converse of StripIsTrim: text that neither starts nor ends with
   * whitespace, padded with whitespace on both sides, strips back to itself.
   */
  lemma StripOf(pre: string, t: string, post: string)
    requires forall k :: 0 <= k < |pre| ==> IsSpace(pre[k])
    requires forall k :: 0 <= k < |post| ==> IsSpace(post[k])
    requires t != [] ==> !IsSpace(t[0]) && !IsSpace(t[|t| - 1])
    ensures Strip(pre + t + post) == t
  {
    if t == [] {
      var s := pre + t + post;
      assert forall k :: 0 <= k < |s| ==> IsSpace(s[k]);
      TextStartOf(s, []);
      assert s + [] == s;
    } else {
      TextStartOf(pre, t + post);
      assert pre + t + post == pre + (t + post);
      assert (pre + t + post)[|pre|..] == t + post;
      TextEndOf(t, post);
    }
  }

  /**
   * The line a program file holds for a value: its w-digit numeral, then
   * optional whitespace and a comment. Loading it gives back the value.
   */
  lemma NumeralLine(n: nat, w: nat, pad: string, comment: string)
    requires 0 < w && n < Pow2(w)
    requires forall k :: 0 <= k < |pad| ==> IsSpace(pad[k])
    ensures Entry(Bits(n, w) + pad + "#" + comment) == [n]
  {
    NumeralCode(Bits(n, w), pad, comment);
    ParseBits(n, w);
  }

  /** The code of a numeral line is its digits. */
  lemma NumeralCode(digits: string, pad: string, comment: string)
    requires digits != [] && IsBinary(digits)
    requires forall k :: 0 <= k < |pad| ==> IsSpace(pad[k])
    ensures Code(digits + pad + "#" + comment) == digits
  {
    var code := digits + pad;
    assert '#' !in code by {
      assert forall k :: 0 <= k < |code| ==> code[k] == if k < |digits| then digits[k] else pad[k - |digits|];
    }
    CodePartOf(code, comment);
    StripOf([], digits, pad);
    assert [] + digits + pad == code;
  }

  /** A line holding only whitespace and a comment loads nothing. */
  lemma CommentLine(pad: string, comment: string)
    requires forall k :: 0 <= k < |pad| ==> IsSpace(pad[k])
    ensures Entry(pad + "#" + comment) == []
  {
    assert '#' !in pad;
    CodePartOf(pad, comment);
    StripOf(pad, [], []);
    assert pad + [] + [] == pad;
  }

  /** Appending a line appends its entry to the image. */
  lemma ProgramSnoc(lines: seq<string>, line: string)
    ensures Program(lines + [line]) == Program(lines) + Entry(line)
  {
    ProgramConcat(lines, [line]);
    ProgramOne(line);
  }

  /**
   * The image holds one value per non-blank line, so the k-th non-blank
   * line (counting from 0) is stored at address k.
   */
  lemma ProgramCountsNonBlank(lines: seq<string>)
    ensures |Program(lines)| == NonBlank(lines)
  {
    EntriesLength(lines);
  }

  /** A file of lines that each load one value loads exactly those values, in order. */
  lemma {:induction false} ProgramOfValues(lines: seq<string>, values: seq<int>)
    requires |lines| == |values|
    requires forall i :: 0 <= i < |lines| ==> Entry(lines[i]) == [values[i]]
    ensures Program(lines) == values
  {
    if lines != [] {
      var k := |lines| - 1;
      ProgramOfValues(lines[..k], values[..k]);
      assert lines == lines[..k] + [lines[k]];
      ProgramSnoc(lines[..k], lines[k]);
      assert values == values[..k] + [values[k]];
    }
  }
}
