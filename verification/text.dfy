/** JavaScript's `String.prototype.split` with a one-character separator, and
    the checksum-file token parse the updater builds from it:
    `sumContent.split("\n")[0].split(" ")[0]`. */
module Text {

  /** `s.split(sep)` for a separator of one character: the maximal runs of
      characters between separators, in order. Splitting the empty string
      gives one empty piece, and so does every separator at either end. */
  function Split(s: string, sep: char): (r: seq<string>)
    ensures |r| >= 1
    decreases |s|
  {
    if s == [] then [[]]
    else
      var rest := Split(s[1..], sep);
      if s[0] == sep then [[]] + rest
      else [[s[0]] + rest[0]] + rest[1..]
  }

  /** `pieces.join(sep)`: the inverse of Split. */
  function Join(pieces: seq<string>, sep: char): string
    requires |pieces| >= 1
    decreases |pieces|
  {
    if |pieces| == 1 then pieces[0]
    else pieces[0] + [sep] + Join(pieces[1..], sep)
  }

  /** Joining the pieces of a split with the same separator gives back the
      original string. */
  lemma {:induction false} JoinSplit(s: string, sep: char)
    ensures Join(Split(s, sep), sep) == s
    decreases |s|
  {
    if s != [] {
      var rest := Split(s[1..], sep);
      JoinSplit(s[1..], sep);
      if s[0] == sep {
        assert Split(s, sep) == [[]] + rest;
        assert ([[]] + rest)[1..] == rest;
      } else {
        var r := Split(s, sep);
        assert r == [[s[0]] + rest[0]] + rest[1..];
        if |rest| == 1 {
          assert r == [[s[0]] + rest[0]];
        } else {
          assert r[1..] == rest[1..];
          assert Join(rest, sep) == rest[0] + [sep] + Join(rest[1..], sep);
        }
      }
    }
  }

  /** No piece of a split contains the separator. */
  lemma {:induction false} SplitPiecesFree(s: string, sep: char)
    ensures forall i :: 0 <= i < |Split(s, sep)| ==> sep !in Split(s, sep)[i]
    decreases |s|
  {
    if s != [] {
      SplitPiecesFree(s[1..], sep);
      var rest := Split(s[1..], sep);
      var r := Split(s, sep);
      if s[0] == sep {
        forall i | 0 <= i < |r| ensures sep !in r[i] {
          if i > 0 { assert r[i] == rest[i - 1]; }
        }
      } else {
        forall i | 0 <= i < |r| ensures sep !in r[i] {
          if i > 0 { assert r[i] == rest[i]; }
        }
      }
    }
  }

  /** Splitting a string that starts with a separator-free prefix `p` glues
      `p` onto the first piece of the rest and leaves the other pieces. */
  lemma {:induction false} SplitAfterFree(p: string, x: string, sep: char)
    requires sep !in p
    ensures Split(p + x, sep) == [p + Split(x, sep)[0]] + Split(x, sep)[1..]
    decreases |p|
  {
    if p == [] {
      assert p + x == x;
      var r := Split(x, sep);
      assert p + r[0] == r[0];
      assert r == [r[0]] + r[1..];
    } else {
      SplitAfterFree(p[1..], x, sep);
      assert (p + x)[1..] == p[1..] + x;
      assert (p + x)[0] == p[0];
      assert [p[0]] + (p[1..] + Split(x, sep)[0]) == p + Split(x, sep)[0];
    }
  }

  /** A split undoes a join of separator-free pieces. */
  lemma {:induction false} SplitJoin(pieces: seq<string>, sep: char)
    requires |pieces| >= 1
    requires forall i :: 0 <= i < |pieces| ==> sep !in pieces[i]
    ensures Split(Join(pieces, sep), sep) == pieces
    decreases |pieces|
  {
    if |pieces| == 1 {
      SplitAfterFree(pieces[0], [], sep);
      assert pieces[0] + [] == pieces[0];
    } else {
      var tail := Join(pieces[1..], sep);
      SplitJoin(pieces[1..], sep);
      SplitAfterFree(pieces[0], [sep] + tail, sep);
      assert Join(pieces, sep) == pieces[0] + ([sep] + tail);
      assert ([sep] + tail)[0] == sep && ([sep] + tail)[1..] == tail;
      var r := Split([sep] + tail, sep);
      assert r == [[]] + pieces[1..];
      assert r[0] == [] && r[1..] == pieces[1..];
      assert pieces[0] + r[0] == pieces[0];
      assert pieces == [pieces[0]] + pieces[1..];
    }
  }

  /** The first piece of a split is a separator-free prefix of `s` that
      stops either at the end of `s` or just before a separator. */
  lemma {:induction false} SplitHeadShape(s: string, sep: char)
    ensures Split(s, sep)[0] <= s
    ensures sep !in Split(s, sep)[0]
    ensures |Split(s, sep)[0]| < |s| ==> s[|Split(s, sep)[0]|] == sep
    decreases |s|
  {
    SplitPiecesFree(s, sep);
    if s != [] && s[0] != sep {
      SplitHeadShape(s[1..], sep);
    }
  }

  /** `s.split(sep)[0]`: everything before the first separator, or the whole
      string when there is none. */
  function FirstField(s: string, sep: char): (field: string)
    ensures field <= s
    ensures sep !in field
    ensures |field| < |s| ==> s[|field|] == sep
  {
    SplitHeadShape(s, sep);
    Split(s, sep)[0]
  }

  /** The two delimiters that end the expected digest. */
  predicate IsDelimiter(c: char)
  {
    c == ' ' || c == '\n'
  }

  /** A prefix of `s` that contains no delimiter and stops at the end of `s`
      or just before a delimiter; ExpectedSum is the only such string. */
  predicate IsLeadingToken(t: string, s: string)
  {
    t <= s
    && (forall i :: 0 <= i < |t| ==> !IsDelimiter(t[i]))
    && (|t| < |s| ==> IsDelimiter(s[|t|]))
  }

  /** The first space-delimited field of the first line is the leading token
      of the whole text. */
  lemma FirstFieldOfFirstLine(s: string)
    ensures IsLeadingToken(FirstField(FirstField(s, '\n'), ' '), s)
  {
  }

  /** The digest expected by the checksum file: the first space-delimited
      token of its first line. It is a prefix of the checksum text, holds
      neither a space nor a newline, and is followed by one of them unless it
      runs to the end of the text. */
  function ExpectedSum(sumContent: string): (token: string)
    ensures IsLeadingToken(token, sumContent)
    ensures ' ' !in token && '\n' !in token
  {
    FirstFieldOfFirstLine(sumContent);
    FirstField(FirstField(sumContent, '\n'), ' ')
  }

  /** At most one string is a leading token of `s`. */
  lemma LeadingTokenUnique(t: string, u: string, s: string)
    requires IsLeadingToken(t, s) && IsLeadingToken(u, s)
    ensures t == u
  {
  }

  /** ExpectedSum is exactly the leading token: both directions. */
  lemma ExpectedSumCharacterized(t: string, sumContent: string)
    ensures ExpectedSum(sumContent) == t <==> IsLeadingToken(t, sumContent)
  {
  }

  /** A digest without spaces or newlines written in front of either
      delimiter is parsed back exactly, whatever follows. */
  lemma ExpectedSumOfDelimited(d: string, c: char, tail: string)
    requires ' ' !in d && '\n' !in d
    requires IsDelimiter(c)
    ensures ExpectedSum(d + [c] + tail) == d
  {
    var s := d + [c] + tail;
    assert s[|d|] == c;
    assert d <= s;
    ExpectedSumCharacterized(d, s);
  }

  /** Round trip of the `<digest> <name>` line format: for any file name and
      any further lines, the parse yields the digest that was written. */
  lemma ExpectedSumRoundTrip(d: string, name: string, rest: string)
    requires ' ' !in d && '\n' !in d
    ensures ExpectedSum(d + " " + name + "\n" + rest) == d
  {
    assert d + " " + name + "\n" + rest == d + [' '] + (name + "\n" + rest);
    ExpectedSumOfDelimited(d, ' ', name + "\n" + rest);
  }

  /** A checksum text that starts with a delimiter, or is empty, yields the
      empty token. */
  lemma ExpectedSumEmpty(sumContent: string)
    requires sumContent == [] || IsDelimiter(sumContent[0])
    ensures ExpectedSum(sumContent) == []
  {
  }
}
