/** Blanks; and joining strings with a separator, and splitting them again, as Python's join and split do. */
module Text {
  function Join(parts: seq<string>, sep: char): string {
    if parts == [] then "" else if |parts| == 1 then parts[0] else parts[0] + [sep] + Join(parts[1..], sep)
  }

  /** s.split(sep): always at least one part. */
  function Split(s: string, sep: char): (parts: seq<string>)
    ensures parts != []
  {
    if s == "" then [""]
    else
      var rest := Split(s[1..], sep);
      if s[0] == sep then [""] + rest else [[s[0]] + rest[0]] + rest[1..]
  }

  predicate IsSpace(c: char) {
    c == ' ' || c == '\t' || c == '\n' || c == '\U{0B}' || c == '\U{0C}' || c == '\r'
  }

  function SkipSpace(s: string): string {
    if s != "" && IsSpace(s[0]) then SkipSpace(s[1..]) else s
  }

  predicate Free(s: string, sep: char) {
    forall i :: 0 <= i < |s| ==> s[i] != sep
  }

  lemma {:induction false} SplitFree(s: string, sep: char)
    requires Free(s, sep)
    ensures Split(s, sep) == [s]
  {
    if s == "" {
    } else {
      assert Free(s[1..], sep);
      SplitFree(s[1..], sep);
      assert s == [s[0]] + s[1..];
    }
  }

  lemma {:induction false} SplitFirst(s: string, sep: char, rest: string)
    requires Free(s, sep)
    ensures Split(s + [sep] + rest, sep) == [s] + Split(rest, sep)
  {
    var t := s + [sep] + rest;
    if s == "" {
      assert t[1..] == rest;
    } else {
      assert Free(s[1..], sep);
      SplitFirst(s[1..], sep, rest);
      assert t[1..] == s[1..] + [sep] + rest;
      assert s == [s[0]] + s[1..];
    }
  }

  /** Parts without the separator are found again. */
  lemma {:induction false} SplitJoin(parts: seq<string>, sep: char)
    requires parts != [] && forall i :: 0 <= i < |parts| ==> Free(parts[i], sep)
    ensures Split(Join(parts, sep), sep) == parts
  {
    if |parts| == 1 {
      SplitFree(parts[0], sep);
    } else {
      SplitJoin(parts[1..], sep);
      SplitFirst(parts[0], sep, Join(parts[1..], sep));
      assert parts == [parts[0]] + parts[1..];
    }
  }

  // ---------------------------------------------------------------- words

  /** A word: some characters, none of them blank. */
  predicate Solid(s: string) {
    s != "" && forall i :: 0 <= i < |s| ==> !IsSpace(s[i])
  }

  /** The characters before the first blank. */
  function Word(s: string): (w: string)
    ensures w <= s && (forall i :: 0 <= i < |w| ==> !IsSpace(w[i])) && (|w| < |s| ==> IsSpace(s[|w|]))
  {
    if s == "" || IsSpace(s[0]) then "" else [s[0]] + Word(s[1..])
  }

  /** s.split(): the words between any number of blanks. */
  function Words(s: string): seq<string>
    decreases |s|
  {
    if s == "" then []
    else if IsSpace(s[0]) then Words(s[1..])
    else [Word(s)] + Words(s[|Word(s)|..])
  }

  lemma WordIs(w: string, rest: string)
    requires Solid(w) && (rest == "" || IsSpace(rest[0]))
    ensures Word(w + rest) == w && (w + rest)[|w|..] == rest
  {
    var s := w + rest;
    var found := Word(s);
    assert forall i :: 0 <= i < |w| ==> s[i] == w[i];
    assert forall i :: 0 <= i < |found| ==> found[i] == s[i];
    assert |w| < |s| ==> s[|w|] == rest[0];
  }

  /** Words joined by single blanks are found again. */
  lemma {:induction false} WordsJoin(parts: seq<string>)
    requires forall i :: 0 <= i < |parts| ==> Solid(parts[i])
    ensures Words(Join(parts, ' ')) == parts
  {
    if parts == [] {
    } else if |parts| == 1 {
      WordIs(parts[0], "");
      assert parts[0] + "" == parts[0];
    } else {
      var rest := [' '] + Join(parts[1..], ' ');
      WordsJoin(parts[1..]);
      WordIs(parts[0], rest);
      assert Join(parts, ' ') == parts[0] + rest;
      assert !IsSpace(Join(parts, ' ')[0]);
      assert rest[1..] == Join(parts[1..], ' ');
      assert parts == [parts[0]] + parts[1..];
    }
  }
}
