/** The segment record shared by capture, diarization and the pipeline
    (`TranscriptionSegment`), and the few JavaScript string and array
    built-ins the core relies on. */
module Transcript {

  /** One recognised span of speech; times are seconds of the original audio. */
  datatype Segment = Segment(
    text: string,
    startTime: real,
    endTime: real,
    speakerLabel: string,
    confidence: real)

  /** A stored row of the `transcriptions` table; its identifier and
      creation time are assigned by the store. */
  datatype Row = Row(
    recordingId: string,
    speakerLabel: string,
    text: string,
    startTime: real,
    endTime: real,
    confidence: real)

  /** Label the capture loop gives every segment before diarization. */
  const PlaceholderLabel: string := "speaker_1"
  const InterviewerLabel: string := "interviewer"
  const IntervieweeLabel: string := "interviewee"

  /** The characters `String.prototype.trim` removes: WhiteSpace and
      LineTerminator of ECMAScript (including every Zs space separator). */
  predicate IsWhitespace(c: char) {
    c in {' ', '\t', '\n', '\r', '\U{000B}', '\U{000C}', '\U{00A0}', '\U{1680}',
          '\U{2028}', '\U{2029}', '\U{202F}', '\U{205F}', '\U{3000}', '\U{FEFF}'}
    || ('\U{2000}' <= c <= '\U{200A}')
  }

  predicate Blank(s: string) {
    forall k :: 0 <= k < |s| ==> IsWhitespace(s[k])
  }

  /** Drops leading whitespace. */
  function TrimStart(s: string): (r: string)
    ensures |r| <= |s|
  {
    if |s| > 0 && IsWhitespace(s[0]) then TrimStart(s[1..]) else s
  }

  /** Drops trailing whitespace. */
  function TrimEnd(s: string): (r: string)
    ensures |r| <= |s|
  {
    if |s| > 0 && IsWhitespace(s[|s| - 1]) then TrimEnd(s[..|s| - 1]) else s
  }

  /** `s.trim()`. */
  function Trim(s: string): string {
    TrimEnd(TrimStart(s))
  }

  /** The result of TrimStart is a suffix of `s`, everything dropped is
      whitespace, and it does not start with whitespace. */
  lemma {:induction false} TrimStartSpec(s: string)
    ensures TrimStart(s) == s[|s| - |TrimStart(s)|..]
    ensures forall k :: 0 <= k < |s| - |TrimStart(s)| ==> IsWhitespace(s[k])
    ensures TrimStart(s) != [] ==> !IsWhitespace(TrimStart(s)[0])
  {
    if |s| > 0 && IsWhitespace(s[0]) {
      TrimStartSpec(s[1..]);
    }
  }

  /** The result of TrimEnd is a prefix of `s`, everything dropped is
      whitespace, and it does not end with whitespace. */
  lemma {:induction false} TrimEndSpec(s: string)
    ensures TrimEnd(s) == s[..|TrimEnd(s)|]
    ensures forall k :: |TrimEnd(s)| <= k < |s| ==> IsWhitespace(s[k])
    ensures TrimEnd(s) != [] ==> !IsWhitespace(TrimEnd(s)[|TrimEnd(s)| - 1])
  {
    if |s| > 0 && IsWhitespace(s[|s| - 1]) {
      TrimEndSpec(s[..|s| - 1]);
    }
  }

  /** `s.trim()` is empty exactly when `s` is all whitespace, and otherwise
      it starts and ends with a non-whitespace character. */
  lemma TrimSpec(s: string)
    ensures |Trim(s)| == 0 <==> Blank(s)
    ensures Trim(s) != [] ==> !IsWhitespace(Trim(s)[0]) && !IsWhitespace(Trim(s)[|Trim(s)| - 1])
  {
    var t := TrimStart(s);
    TrimStartSpec(s);
    TrimEndSpec(t);
    if |Trim(s)| != 0 {
      assert Trim(s)[0] == t[0];
    }
  }

  /** Trimming twice is trimming once. */
  lemma TrimIdempotent(s: string)
    ensures Trim(Trim(s)) == Trim(s)
  {
    var r := Trim(s);
    TrimSpec(s);
    if r != [] {
      assert TrimStart(r) == r;
      assert TrimEnd(r) == r;
    }
  }

  /** `s.split(sep)` for a one-character separator: the pieces between
      separators (an empty string gives one empty piece). */
  function Split(s: string, sep: char): (parts: seq<string>)
    ensures |parts| >= 1
  {
    if |s| == 0 then [""]
    else
      var rest := Split(s[1..], sep);
      if s[0] == sep then [""] + rest else [[s[0]] + rest[0]] + rest[1..]
  }

  /** The number of separators in `s`. */
  function Count(s: string, sep: char): nat {
    if |s| == 0 then 0 else (if s[0] == sep then 1 else 0) + Count(s[1..], sep)
  }

  /** `parts.join(sep)`. */
  function Join(parts: seq<string>, sep: char): string
    requires |parts| >= 1
  {
    if |parts| == 1 then parts[0] else parts[0] + [sep] + Join(parts[1..], sep)
  }

  /** Splitting gives one more piece than there are separators, no piece
      holds a separator, and joining the pieces gives `s` back. */
  lemma {:induction false} SplitSpec(s: string, sep: char)
    ensures |Split(s, sep)| == Count(s, sep) + 1
    ensures forall k :: 0 <= k < |Split(s, sep)| ==> sep !in Split(s, sep)[k]
    ensures Join(Split(s, sep), sep) == s
  {
    if |s| > 0 {
      var rest := Split(s[1..], sep);
      SplitSpec(s[1..], sep);
      if s[0] == sep {
        assert Split(s, sep) == [""] + rest;
        assert Split(s, sep)[1..] == rest;
        assert s == [s[0]] + s[1..];
      } else {
        SplitSpecInPiece(s, sep);
      }
    }
  }

  /** The step of SplitSpec when `s` starts inside its first piece. */
  lemma SplitSpecInPiece(s: string, sep: char)
    requires |s| > 0 && s[0] != sep
    requires |Split(s[1..], sep)| == Count(s[1..], sep) + 1
    requires forall k :: 0 <= k < |Split(s[1..], sep)| ==> sep !in Split(s[1..], sep)[k]
    requires Join(Split(s[1..], sep), sep) == s[1..]
    ensures |Split(s, sep)| == Count(s, sep) + 1
    ensures forall k :: 0 <= k < |Split(s, sep)| ==> sep !in Split(s, sep)[k]
    ensures Join(Split(s, sep), sep) == s
  {
    var rest := Split(s[1..], sep);
    var p := Split(s, sep);
    assert p == [[s[0]] + rest[0]] + rest[1..];
    forall k | 0 <= k < |p| ensures sep !in p[k] {
      if k > 0 { assert p[k] == rest[k]; }
    }
    if |rest| == 1 {
      assert s == [s[0]] + rest[0];
    } else {
      assert p[1..] == rest[1..];
      assert Join(rest, sep) == rest[0] + [sep] + Join(rest[1..], sep);
      assert s == [s[0]] + s[1..];
    }
  }

  /** A string without the separator is a single piece. */
  lemma {:induction false} SplitWithout(a: string, sep: char)
    requires sep !in a
    ensures Split(a, sep) == [a]
  {
    if |a| > 0 {
      SplitWithout(a[1..], sep);
      assert [a[0]] + a[1..] == a;
    }
  }

  /** Splitting at a separator that follows a separator-free piece. */
  lemma {:induction false} SplitAfter(a: string, sep: char, b: string)
    requires sep !in a
    ensures Split(a + [sep] + b, sep) == [a] + Split(b, sep)
  {
    if |a| == 0 {
      assert a + [sep] + b == [sep] + b;
      assert ([sep] + b)[1..] == b;
    } else {
      SplitAfter(a[1..], sep, b);
      assert (a + [sep] + b)[1..] == a[1..] + [sep] + b;
      assert [a[0]] + a[1..] == a;
    }
  }

  /** Two separator-free pieces joined by the separator split back apart. */
  lemma SplitTwo(a: string, b: string, sep: char)
    requires sep !in a && sep !in b
    ensures Split(a + [sep] + b, sep) == [a, b]
  {
    SplitWithout(b, sep);
    SplitAfter(a, sep, b);
  }

  /** Three separator-free pieces joined by the separator split back apart. */
  lemma SplitThree(a: string, b: string, c: string, sep: char)
    requires sep !in a && sep !in b && sep !in c
    ensures Split(a + [sep] + (b + [sep] + c), sep) == [a, b, c]
  {
    SplitTwo(b, c, sep);
    SplitAfter(a, sep, b + [sep] + c);
  }

  /** A string holding the separator splits into at least two pieces. */
  lemma {:induction false} SplitOfSeparated(s: string, sep: char)
    requires sep in s
    ensures |Split(s, sep)| >= 2
  {
    if s[0] != sep {
      SplitOfSeparated(s[1..], sep);
    }
  }

  /** Splitting a concatenation whose left part ends with the separator:
      the left part's final empty piece is dropped and the right part's
      pieces follow. */
  lemma {:induction false} SplitConcat(x: string, y: string, sep: char)
    requires |x| > 0 && x[|x| - 1] == sep
    ensures Split(x + y, sep) == Split(x, sep)[..|Split(x, sep)| - 1] + Split(y, sep)
  {
    if |x| == 1 {
      assert x + y == [sep] + y;
      assert ([sep] + y)[1..] == y;
      assert Split(x, sep) == [""] + Split(x[1..], sep);
    } else {
      SplitConcat(x[1..], y, sep);
      if x[0] == sep {
        SplitConcatAtSeparator(x, y, sep);
      } else {
        SplitConcatInPiece(x, y, sep);
      }
    }
  }

  /** The step of SplitConcat when `x` starts with the separator. */
  lemma SplitConcatAtSeparator(x: string, y: string, sep: char)
    requires |x| > 1 && x[0] == sep
    requires Split(x[1..] + y, sep) == Split(x[1..], sep)[..|Split(x[1..], sep)| - 1] + Split(y, sep)
    ensures Split(x + y, sep) == Split(x, sep)[..|Split(x, sep)| - 1] + Split(y, sep)
  {
    var px, py := Split(x[1..], sep), Split(y, sep);
    assert (x + y)[1..] == x[1..] + y;
    SplitAtLeading(x + y, sep);
    SplitAtLeading(x, sep);
    Regroup([""], px[..|px| - 1], py);
    DropLastAfter([""], px);
  }

  /** The step of SplitConcat when `x` starts inside its first piece. */
  lemma SplitConcatInPiece(x: string, y: string, sep: char)
    requires |x| > 1 && x[0] != sep && x[|x| - 1] == sep
    requires Split(x[1..] + y, sep) == Split(x[1..], sep)[..|Split(x[1..], sep)| - 1] + Split(y, sep)
    ensures Split(x + y, sep) == Split(x, sep)[..|Split(x, sep)| - 1] + Split(y, sep)
  {
    var x' := x[1..];
    var px, py := Split(x', sep), Split(y, sep);
    assert (x + y)[1..] == x' + y;
    assert sep in x' by { assert x'[|x'| - 1] == sep; }
    SplitOfSeparated(x', sep);
    var head := [[x[0]] + px[0]];
    SplitInFirstPiece(x + y, sep);
    SplitInFirstPiece(x, sep);
    HeadOfDropLast(px, py);
    Regroup(head, px[1..|px| - 1], py);
    DropLastAfter(head, px[1..]);
    assert px[1..][..|px[1..]| - 1] == px[1..|px| - 1];
  }

  /** `split` on a string starting with the separator: an empty first piece. */
  lemma SplitAtLeading(s: string, sep: char)
    requires |s| > 0 && s[0] == sep
    ensures Split(s, sep) == [""] + Split(s[1..], sep)
  {
  }

  /** `split` on a string starting with another character: that character
      begins the first piece. */
  lemma SplitInFirstPiece(s: string, sep: char)
    requires |s| > 0 && s[0] != sep
    ensures Split(s, sep) == [[s[0]] + Split(s[1..], sep)[0]] + Split(s[1..], sep)[1..]
  {
  }

  /** Dropping the last element after a fixed head. */
  lemma DropLastAfter<T>(h: seq<T>, p: seq<T>)
    requires |p| > 0
    ensures (h + p)[..|h + p| - 1] == h + p[..|p| - 1]
  {
  }

  /** The head and tail of `p` without its last element, followed by `q`. */
  lemma HeadOfDropLast<T>(p: seq<T>, q: seq<T>)
    requires |p| >= 2
    ensures (p[..|p| - 1] + q)[0] == p[0] && (p[..|p| - 1] + q)[1..] == p[1..|p| - 1] + q
  {
  }

  /** Concatenation is associative. */
  lemma Regroup<T>(a: seq<T>, b: seq<T>, c: seq<T>)
    ensures a + b + c == a + (b + c)
  {
  }

  /** Index normalisation of `Array.prototype.slice`: a negative index counts
      from the end, and both are clamped to `[0, len]`. */
  function SliceIndex(k: int, len: nat): (r: nat)
    ensures r <= len
    ensures 0 <= k <= len ==> r == k
  {
    if k < 0 then (if len + k < 0 then 0 else len + k)
    else if k > len then len
    else k
  }

  /** `data.slice(start, end)`. */
  function Slice<T>(data: seq<T>, start: int, end: int): (r: seq<T>)
    ensures |r| <= |data|
    ensures 0 <= start <= end <= |data| ==> r == data[start..end]
    ensures 0 <= end <= start ==> r == []
  {
    var a, b := SliceIndex(start, |data|), SliceIndex(end, |data|);
    if a < b then data[a..b] else []
  }
}
