/**
 * Letter-by-letter spelling of an abbreviation (`get_transcription`): the text is
 * upper-cased, every character is replaced by its letter name from the alphabet
 * table (an unknown character by the empty string) and the names are joined with
 * single spaces. Blank text is refused.
 */
module Spelling {
  import opened Results

  /** The error `get_transcription` raises; `NotText` is the failure of `text.strip()` on a non-string. */
  datatype TextError = NotText | EmptyText

  /** Python's `str.isspace()` for one character, i.e. the characters `str.strip()` removes. */
  predicate IsPyWhitespace(c: char) {
    ('\t' <= c <= '\r') || ('\U{1C}' <= c <= '\U{1F}') || c == ' '
    || c == '\U{85}' || c == '\U{A0}' || c == '\U{1680}'
    || ('\U{2000}' <= c <= '\U{200A}') || c == '\U{2028}' || c == '\U{2029}'
    || c == '\U{202F}' || c == '\U{205F}' || c == '\U{3000}'
  }

  /** Every character of `s` is whitespace (the empty string included). */
  predicate IsBlank(s: string) {
    forall k | 0 <= k < |s| :: IsPyWhitespace(s[k])
  }

  /** `s.lstrip()`: the longest suffix of `s` that does not start with whitespace. */
  function TrimStart(s: string): (r: string)
    ensures |r| <= |s| && r == s[|s| - |r|..]
    ensures forall k | 0 <= k < |s| - |r| :: IsPyWhitespace(s[k])
    ensures |r| > 0 ==> !IsPyWhitespace(r[0])
  {
    if |s| > 0 && IsPyWhitespace(s[0]) then TrimStart(s[1..]) else s
  }

  /** `s.rstrip()`: the longest prefix of `s` that does not end with whitespace. */
  function TrimEnd(s: string): (r: string)
    ensures |r| <= |s| && r == s[..|r|]
    ensures forall k | |r| <= k < |s| :: IsPyWhitespace(s[k])
    ensures |r| > 0 ==> !IsPyWhitespace(r[|r| - 1])
  {
    if |s| > 0 && IsPyWhitespace(s[|s| - 1]) then TrimEnd(s[..|s| - 1]) else s
  }

  /** Trimming both ends leaves nothing exactly when the text is blank. */
  lemma {:induction false} StripEmptyIffBlank(s: string)
    ensures |TrimEnd(TrimStart(s))| == 0 <==> IsBlank(s)
  {
    var t := TrimStart(s);
    if |t| > 0 {
      assert s[|s| - |t|] == t[0];
    }
  }

  /**
   * `s.strip()`: `s` without its leading and trailing whitespace. It is empty, which
   * is the guard of `get_transcription`, exactly when the text is blank.
   */
  function Strip(s: string): (r: string)
    ensures |r| <= |s|
    ensures |r| == 0 <==> IsBlank(s)
  {
    StripEmptyIffBlank(s);
    TrimEnd(TrimStart(s))
  }

  /** `alphabets.get(symbol, "")`. */
  function Lookup(alphabet: map<char, string>, c: char): string {
    if c in alphabet then alphabet[c] else ""
  }

  /** The list comprehension of `get_transcription`: one letter name per character of `u`. */
  function Spellings(alphabet: map<char, string>, u: string): (ws: seq<string>)
    ensures |ws| == |u|
    ensures forall i | 0 <= i < |u| :: ws[i] == Lookup(alphabet, u[i])
  {
    seq(|u|, i requires 0 <= i < |u| => Lookup(alphabet, u[i]))
  }

  /** `' '.join(ws)`. */
  function Join(ws: seq<string>): (r: string)
    ensures |ws| == 0 ==> r == ""
    ensures |ws| > 0 ==> ws[0] <= r
  {
    if |ws| == 0 then ""
    else if |ws| == 1 then ws[0]
    else ws[0] + " " + Join(ws[1..])
  }

  /** `s.split(' ')`: the pieces of `s` between single spaces; there is always at least one. */
  function Split(s: string): (parts: seq<string>)
    ensures |parts| >= 1
  {
    if |s| == 0 then [""]
    else
      var rest := Split(s[1..]);
      if s[0] == ' ' then [""] + rest
      else [[s[0]] + rest[0]] + rest[1..]
  }

  /** The number of times `c` occurs in `s` (`s.count(c)`). */
  function Occurrences(s: string, c: char): nat {
    if |s| == 0 then 0 else (if s[0] == c then 1 else 0) + Occurrences(s[1..], c)
  }

  /**
   * `get_transcription(text)`: refuses blank text, otherwise spells the upper-cased
   * text letter by letter. `upper` stands for `str.upper()`.
   */
  function Transcribe(alphabet: map<char, string>, upper: string -> string, text: string): (r: Result<string, TextError>)
    ensures r.Err? <==> IsBlank(text)
    ensures r.Err? ==> r.error == EmptyText
  {
    if |Strip(text)| == 0 then Err(EmptyText)
    else Ok(Join(Spellings(alphabet, upper(text))))
  }

  /** Splitting a space-free word followed by anything glues the word onto the first piece. */
  lemma {:induction false} SplitWord(w: string, tail: string)
    requires ' ' !in w
    ensures Split(w + tail) == [w + Split(tail)[0]] + Split(tail)[1..]
  {
    var parts := Split(tail);
    if |w| == 0 {
      assert w + tail == tail;
      assert w + parts[0] == parts[0];
      assert parts == [parts[0]] + parts[1..];
    } else {
      assert (w + tail)[1..] == w[1..] + tail;
      assert (w + tail)[0] == w[0];
      assert ' ' !in w[1..];
      SplitWord(w[1..], tail);
      assert [w[0]] + (w[1..] + Split(tail)[0]) == w + Split(tail)[0];
    }
  }

  /** Splitting undoes joining, as long as no piece contains a space and there is at least one piece. */
  lemma {:induction false} SplitJoin(ws: seq<string>)
    requires |ws| > 0
    requires forall k | 0 <= k < |ws| :: ' ' !in ws[k]
    ensures Split(Join(ws)) == ws
  {
    if |ws| == 1 {
      SplitWord(ws[0], "");
      assert ws[0] + "" == ws[0];
    } else {
      var rest := Join(ws[1..]);
      SplitJoin(ws[1..]);
      assert ws[0] + " " + rest == ws[0] + (" " + rest);
      SplitWord(ws[0], " " + rest);
      assert (" " + rest)[0] == ' ' && (" " + rest)[1..] == rest;
      assert Split(" " + rest) == [""] + Split(rest);
      assert ws[0] + "" == ws[0];
      assert ws == [ws[0]] + ws[1..];
    }
  }

  /** Counting distributes over concatenation. */
  lemma {:induction false} OccurrencesAppend(a: string, b: string, c: char)
    ensures Occurrences(a + b, c) == Occurrences(a, c) + Occurrences(b, c)
  {
    if |a| == 0 {
      assert a + b == b;
    } else {
      assert (a + b)[1..] == a[1..] + b;
      OccurrencesAppend(a[1..], b, c);
    }
  }

  /** A character that does not occur is counted zero times. */
  lemma {:induction false} OccurrencesAbsent(a: string, c: char)
    requires c !in a
    ensures Occurrences(a, c) == 0
  {
    if |a| > 0 {
      assert c !in a[1..];
      OccurrencesAbsent(a[1..], c);
    }
  }

  /** Joining n space-free pieces puts exactly n - 1 separators between them. */
  lemma {:induction false} JoinSeparators(ws: seq<string>)
    requires |ws| > 0
    requires forall k | 0 <= k < |ws| :: ' ' !in ws[k]
    ensures Occurrences(Join(ws), ' ') == |ws| - 1
  {
    OccurrencesAbsent(ws[0], ' ');
    if |ws| > 1 {
      JoinSeparators(ws[1..]);
      OccurrencesAppend(ws[0], " ", ' ');
      OccurrencesAppend(ws[0] + " ", Join(ws[1..]), ' ');
    }
  }

  /**
   * When no letter name contains a space, the spelling of non-blank text splits
   * back into exactly the letter names of the upper-cased characters, in order,
   * and holds one separator fewer than there are characters.
   */
  lemma {:induction false} TranscribeSpellsLetters(alphabet: map<char, string>, upper: string -> string, text: string)
    requires !IsBlank(text)
    requires |upper(text)| > 0
    requires forall c | c in alphabet :: ' ' !in alphabet[c]
    ensures Transcribe(alphabet, upper, text).Ok?
    ensures var u, t := upper(text), Transcribe(alphabet, upper, text).value;
            |Split(t)| == |u| && (forall i | 0 <= i < |u| :: Split(t)[i] == Lookup(alphabet, u[i]))
            && Occurrences(t, ' ') == |u| - 1
  {
    var ws := Spellings(alphabet, upper(text));
    forall k | 0 <= k < |ws| ensures ' ' !in ws[k] {
      assert ws[k] == Lookup(alphabet, upper(text)[k]);
    }
    SplitJoin(ws);
    JoinSeparators(ws);
  }
}
