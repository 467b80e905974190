/**
 * The name `gr_save_json` gives the saved file: the stem of the file that was
 * loaded, an underscore, the timestamp and `.json`.
 */
module FileNames {

  /** No character of `s` is `c`. */
  predicate Lacks(s: string, c: char) {
    forall k | 0 <= k < |s| :: s[k] != c
  }

  /** The index of the last `c` among the first `n` characters of `s`, or -1. */
  function LastIndexBelow(s: string, c: char, n: nat): (i: int)
    requires n <= |s|
    ensures -1 <= i < n
    ensures i >= 0 ==> s[i] == c
    ensures forall j | i < j < n :: s[j] != c
  {
    if n == 0 then -1
    else if s[n - 1] == c then n - 1
    else LastIndexBelow(s, c, n - 1)
  }

  /** `s.rfind(c)`: the index of the last `c` in `s`, or -1. */
  function LastIndexOf(s: string, c: char): int {
    LastIndexBelow(s, c, |s|)
  }

  /** `Path(p).name`: the text after the last '/'. */
  function BaseName(p: string): (n: string)
    ensures |n| <= |p| && n == p[|p| - |n|..]
  {
    p[LastIndexOf(p, '/') + 1..]
  }

  /** `Path(p).stem`: the base name without its last suffix (a dot that neither starts nor ends the name). */
  function Stem(p: string): (r: string)
    ensures r <= BaseName(p)
  {
    var n := BaseName(p);
    var i := LastIndexOf(n, '.');
    if 0 < i < |n| - 1 then n[..i] else n
  }

  /** `Path(p).suffix`: the last suffix of the base name, or "". */
  function Suffix(p: string): (r: string)
    ensures r == "" || r[0] == '.'
    ensures |r| <= |BaseName(p)| && r == BaseName(p)[|BaseName(p)| - |r|..]
  {
    var n := BaseName(p);
    var i := LastIndexOf(n, '.');
    if 0 < i < |n| - 1 then n[i..] else ""
  }

  /** `f"{Path(original).stem}_{timestamp}.json"`. */
  function SaveName(original: string, timestamp: string): (r: string)
    ensures Stem(original) + "_" + timestamp <= r
    ensures |r| >= 5 && r[|r| - 5..] == ".json"
  {
    Stem(original) + "_" + timestamp + ".json"
  }

  /** Everything after the last `c` lacks `c`. */
  lemma {:induction false} AfterLastIndexLacks(s: string, c: char)
    ensures Lacks(s[LastIndexOf(s, c) + 1..], c)
  {
    var i := LastIndexOf(s, c);
    var rest := s[i + 1..];
    forall k | 0 <= k < |rest| ensures rest[k] != c {
      assert rest[k] == s[i + 1 + k];
    }
  }

  /** A character followed by text that lacks it is its last occurrence. */
  lemma {:induction false} LastIndexOfBefore(head: string, c: char, tail: string)
    requires Lacks(tail, c)
    ensures LastIndexOf(head + [c] + tail, c) == |head|
  {
    var s := head + [c] + tail;
    assert s[|head|] == c;
    forall j | |head| < j < |s| ensures s[j] != c {
      assert s[j] == tail[j - |head| - 1];
    }
  }

  /** A string that lacks `c` has no last `c`. */
  lemma {:induction false} LastIndexOfAbsent(s: string, c: char)
    requires Lacks(s, c)
    ensures LastIndexOf(s, c) == -1
  {
  }

  /**
   * `Path(p).name` is the trailing piece of `p` that lacks '/', preceded in `p` by
   * a '/' whenever it is not all of `p`.
   */
  lemma {:induction false} BaseNameShape(p: string)
    ensures var n := BaseName(p);
            Lacks(n, '/') && |n| <= |p| && p[|p| - |n|..] == n
            && (|n| < |p| ==> p[|p| - |n| - 1] == '/')
  {
    AfterLastIndexLacks(p, '/');
  }

  /** The stem is a prefix of the base name, and so lacks '/'. */
  lemma {:induction false} StemLacksSlash(p: string)
    ensures Lacks(Stem(p), '/')
  {
    var n := BaseName(p);
    var i := LastIndexOf(n, '.');
    BaseNameShape(p);
    if 0 < i < |n| - 1 {
      forall k | 0 <= k < i ensures n[..i][k] != '/' {
        assert n[..i][k] == n[k];
      }
    }
  }

  /** A suffix is a dot, then at least one character and no other dot, after a non-empty stem. */
  lemma {:induction false} SuffixShape(p: string)
    requires Suffix(p) != ""
    ensures |Stem(p)| > 0 && |Suffix(p)| > 1 && Suffix(p)[0] == '.' && Lacks(Suffix(p)[1..], '.')
  {
    var n := BaseName(p);
    var i := LastIndexOf(n, '.');
    assert Suffix(p) == n[i..] && Stem(p) == n[..i];
    AfterLastIndexLacks(n, '.');
    assert n[i..][1..] == n[i + 1..];
  }

  /**
   * Stem and suffix split the base name: the stem lacks '/', it is non-empty whenever
   * there is a suffix, and a suffix is a dot followed by at least one character and
   * no other dot.
   */
  lemma {:induction false} StemSuffix(p: string)
    ensures Stem(p) + Suffix(p) == BaseName(p)
    ensures Lacks(Stem(p), '/')
    ensures Suffix(p) != "" ==>
              |Stem(p)| > 0 && |Suffix(p)| > 1 && Suffix(p)[0] == '.' && Lacks(Suffix(p)[1..], '.')
  {
    var n := BaseName(p);
    var i := LastIndexOf(n, '.');
    if 0 < i < |n| - 1 {
      assert n[..i] + n[i..] == n;
      SuffixShape(p);
    } else {
      assert n + "" == n;
    }
    StemLacksSlash(p);
  }

  /** A name free of '/' made of a non-empty head, a dot and a dot-free extension splits at that dot. */
  lemma {:induction false} PlainNameParts(head: string, ext: string)
    requires |head| > 0 && |ext| > 0 && Lacks(ext, '.')
    requires Lacks(head + "." + ext, '/')
    ensures var s := head + "." + ext;
            BaseName(s) == s && Stem(s) == head && Suffix(s) == "." + ext
  {
    var s := head + "." + ext;
    LastIndexOfAbsent(s, '/');
    assert BaseName(s) == s;
    assert s == head + ['.'] + ext;
    LastIndexOfBefore(head, '.', ext);
    assert s[..|head|] == head && s[|head|..] == "." + ext;
  }

  /** A string lacks `c` when both of its halves do. */
  lemma {:induction false} ConcatLacks(a: string, b: string, c: char)
    requires Lacks(a, c) && Lacks(b, c)
    ensures Lacks(a + b, c)
  {
    forall k | 0 <= k < |a + b| ensures (a + b)[k] != c {
      if k < |a| {
        assert (a + b)[k] == a[k];
      } else {
        assert (a + b)[k] == b[k - |a|];
      }
    }
  }

  /**
   * The saved file's own name parts: it is its own base name, its stem is the
   * loaded file's stem, '_' and the timestamp, and its suffix is ".json" — provided
   * the timestamp holds no '/' (the "%d-%m-%Y-%H-%M-%S" format only emits digits and '-').
   */
  lemma {:induction false} SaveNameParts(original: string, timestamp: string)
    requires Lacks(timestamp, '/')
    ensures var s := SaveName(original, timestamp);
            BaseName(s) == s && Stem(s) == Stem(original) + "_" + timestamp && Suffix(s) == ".json"
  {
    var head := Stem(original) + "_" + timestamp;
    assert Lacks(head + "." + "json", '/') by {
      var stem := Stem(original);
      StemLacksSlash(original);
      assert Lacks("_", '/') && Lacks(".json", '/');
      ConcatLacks(stem, "_", '/');
      ConcatLacks(stem + "_", timestamp, '/');
      ConcatLacks(head, ".json", '/');
      assert head + "." + "json" == head + ".json";
    }
    assert Lacks("json", '.');
    assert SaveName(original, timestamp) == head + "." + "json";
    PlainNameParts(head, "json");
  }
}
