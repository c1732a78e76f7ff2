/** Python's whitespace handling for `str.split()` with no separator. */
module Text {
  import opened Wrappers

  /** The characters for which Python's `str.isspace()` holds, which are exactly the
      separators of `str.split()` without an argument: the ASCII controls TAB through CR,
      the file/group/record/unit separators, SPACE, NEL, NO-BREAK SPACE and the Unicode
      space separators and line/paragraph separators. */
  predicate IsSpace(c: char)
  {
    || ('\U{9}' <= c <= '\U{D}')
    || ('\U{1C}' <= c <= '\U{20}')
    || c == '\U{85}'
    || c == '\U{A0}'
    || c == '\U{1680}'
    || ('\U{2000}' <= c <= '\U{200A}')
    || c == '\U{2028}'
    || c == '\U{2029}'
    || c == '\U{202F}'
    || c == '\U{205F}'
    || c == '\U{3000}'
  }

  predicate NoSpace(s: string)
  {
    forall i :: 0 <= i < |s| ==> !IsSpace(s[i])
  }

  predicate AllSpace(s: string)
  {
    forall i :: 0 <= i < |s| ==> IsSpace(s[i])
  }

  /** `s.lstrip()`: `s` without its leading whitespace. */
  function StripLeading(s: string): (r: string)
    ensures |r| <= |s| && r == s[|s| - |r|..]
    ensures AllSpace(s[..|s| - |r|])
    ensures r == [] || !IsSpace(r[0])
    decreases |s|
  {
    if s != [] && IsSpace(s[0]) then StripLeading(s[1..]) else s
  }

  /** The longest prefix of `s` that contains no whitespace. */
  function LeadingRun(s: string): (w: string)
    ensures w <= s
    ensures NoSpace(w)
    ensures |w| == |s| || IsSpace(s[|w|])
    decreases |s|
  {
    if s == [] || IsSpace(s[0]) then [] else [s[0]] + LeadingRun(s[1..])
  }

  /** The first whitespace-delimited token of `s`: leading whitespace is skipped and the
      maximal run of non-whitespace characters that follows is returned. There is none
      exactly when `s` is empty or all whitespace. */
  function FirstToken(s: string): (r: Option<string>)
    ensures r.None? <==> AllSpace(s)
    ensures r.Some? ==> r.value != [] && NoSpace(r.value)
    ensures r.Some? ==> r.value <= StripLeading(s)
    ensures r.Some? ==> |r.value| == |StripLeading(s)| || IsSpace(StripLeading(s)[|r.value|])
    decreases |s|
  {
    if s == [] then None
    else if IsSpace(s[0]) then
      assert forall i :: 1 <= i < |s| ==> s[i] == s[1..][i - 1];
      FirstToken(s[1..])
    else Some(LeadingRun(s))
  }

  /** A token being built is closed: an empty one is dropped. */
  function Close(done: seq<string>, word: string): seq<string>
  {
    if word == [] then done else done + [word]
  }

  /** Every entry is a non-empty run of non-whitespace characters. */
  predicate Tokens(ts: seq<string>)
  {
    forall k :: 0 <= k < |ts| ==> ts[k] != [] && NoSpace(ts[k])
  }

  /** A left-to-right, character-by-character whitespace split that gives the same tokens
      as CPython's `str.split()`: `word` is the token being read and `done` the tokens
      already closed, which the scan only extends. */
  function SplitScan(s: string, word: string, done: seq<string>): (r: seq<string>)
    ensures |done| <= |r| && r[..|done|] == done
    decreases |s|
  {
    if s == [] then Close(done, word)
    else if IsSpace(s[0]) then SplitScan(s[1..], [], Close(done, word))
    else SplitScan(s[1..], word + [s[0]], done)
  }

  lemma {:induction false} ScanYieldsTokens(s: string, word: string, done: seq<string>)
    requires NoSpace(word) && Tokens(done)
    ensures Tokens(SplitScan(s, word, done))
    decreases |s|
  {
    if s != [] {
      if IsSpace(s[0]) {
        ScanYieldsTokens(s[1..], [], Close(done, word));
      } else {
        ScanYieldsTokens(s[1..], word + [s[0]], done);
      }
    }
  }

  /** `s.split()`: the whitespace-delimited tokens of `s`, in order. */
  function Split(s: string): (r: seq<string>)
    ensures Tokens(r)
  {
    ScanYieldsTokens(s, [], []);
    SplitScan(s, [], [])
  }

  /** A token under construction is completed by the leading run of what follows. */
  lemma {:induction false} ScanCompletesWord(s: string, word: string, done: seq<string>)
    requires word != []
    ensures |SplitScan(s, word, done)| > |done|
    ensures SplitScan(s, word, done)[|done|] == word + LeadingRun(s)
    decreases |s|
  {
    if s == [] {
      assert SplitScan(s, word, done) == done + [word];
    } else if IsSpace(s[0]) {
      SpaceClosesWord(s, word, done);
    } else {
      var longer := word + [s[0]];
      assert SplitScan(s, word, done) == SplitScan(s[1..], longer, done);
      ScanCompletesWord(s[1..], longer, done);
      RunExtends(s, word);
    }
  }

  /** A whitespace character closes the token being read. */
  lemma SpaceClosesWord(s: string, word: string, done: seq<string>)
    requires word != [] && s != [] && IsSpace(s[0])
    ensures |SplitScan(s, word, done)| > |done|
    ensures SplitScan(s, word, done)[|done|] == word
  {
    var closed := done + [word];
    assert SplitScan(s, word, done) == SplitScan(s[1..], [], closed);
    PrefixElement(SplitScan(s[1..], [], closed), closed, |done|);
  }

  lemma RunExtends(s: string, word: string)
    requires s != [] && !IsSpace(s[0])
    ensures word + [s[0]] + LeadingRun(s[1..]) == word + LeadingRun(s)
  {
    assert LeadingRun(s) == [s[0]] + LeadingRun(s[1..]);
  }

  lemma PrefixElement<T>(r: seq<T>, p: seq<T>, i: nat)
    requires |p| <= |r| && r[..|p|] == p && i < |p|
    ensures r[i] == p[i]
  {
    assert r[..|p|][i] == r[i];
  }

  /** Scanning from a token boundary adds a token exactly when some non-whitespace
      character is left, and that token is `FirstToken`. */
  lemma {:induction false} ScanFindsFirstToken(s: string, done: seq<string>)
    ensures |SplitScan(s, [], done)| == |done| <==> AllSpace(s)
    ensures !AllSpace(s) ==> SplitScan(s, [], done)[|done|] == FirstToken(s).value
    decreases |s|
  {
    if s == [] {
    } else if IsSpace(s[0]) {
      ScanFindsFirstToken(s[1..], done);
      assert AllSpace(s) <==> AllSpace(s[1..]) by {
        assert forall i :: 1 <= i < |s| ==> s[i] == s[1..][i - 1];
      }
    } else {
      assert [] + [s[0]] == [s[0]];
      assert SplitScan(s, [], done) == SplitScan(s[1..], [s[0]], done);
      ScanCompletesWord(s[1..], [s[0]], done);
      assert LeadingRun(s) == [s[0]] + LeadingRun(s[1..]);
      assert !IsSpace(s[0]) && !AllSpace(s);
    }
  }

  /** `s.split()[0]` is the first token: the split is empty exactly when `FirstToken`
      finds nothing, and otherwise starts with it. */
  lemma FirstTokenIsSplitHead(s: string)
    ensures Split(s) == [] <==> FirstToken(s).None?
    ensures Split(s) != [] ==> FirstToken(s) == Some(Split(s)[0])
  {
    ScanFindsFirstToken(s, []);
  }

  /** The tokens already closed do not influence the rest of the scan. */
  lemma {:induction false} ScanAppends(s: string, word: string, done: seq<string>)
    ensures SplitScan(s, word, done) == done + SplitScan(s, word, [])
    decreases |s|
  {
    if s == [] {
    } else if IsSpace(s[0]) {
      ScanAppends(s[1..], [], Close(done, word));
      ScanAppends(s[1..], [], Close([], word));
    } else {
      ScanAppends(s[1..], word + [s[0]], done);
    }
  }

  /** Leading whitespace before a token boundary is skipped. */
  lemma {:induction false} ScanSkipsLeadingSpace(s: string, done: seq<string>)
    ensures SplitScan(s, [], done) == SplitScan(StripLeading(s), [], done)
    decreases |s|
  {
    if s != [] && IsSpace(s[0]) {
      ScanSkipsLeadingSpace(s[1..], done);
    }
  }

  /** Reading a run of non-whitespace characters only lengthens the token being read. */
  lemma {:induction false} ScanReadsRun(t: string, word: string, done: seq<string>)
    ensures SplitScan(t, word, done) == SplitScan(t[|LeadingRun(t)|..], word + LeadingRun(t), done)
    decreases |t|
  {
    if t != [] && !IsSpace(t[0]) {
      ScanReadsRun(t[1..], word + [t[0]], done);
      RunExtends(t, word);
      assert t[|LeadingRun(t)|..] == t[1..][|LeadingRun(t[1..])|..];
    } else {
      assert word + [] == word;
    }
  }

  /** A whitespace-free prefix that no non-whitespace character follows is the leading run. */
  lemma MaximalRunIsLeadingRun(t: string, w: string)
    requires w <= t && NoSpace(w) && (|w| == |t| || IsSpace(t[|w|]))
    ensures w == LeadingRun(t)
  {
    var run := LeadingRun(t);
    assert |w| == |run|;
    assert w == t[..|w|] == run;
  }

  /** A token being read when its run ends is closed, and the scan then continues as a
      fresh split of what follows. */
  lemma ScanClosesToken(rest: string, token: string)
    requires token != [] && (rest == [] || IsSpace(rest[0]))
    ensures SplitScan(rest, token, []) == [token] + Split(rest)
  {
    assert Close([], token) == [token];
    if rest != [] {
      ScanAppends(rest[1..], [], [token]);
      assert Split(rest) == SplitScan(rest[1..], [], []);
    }
  }

  /** `s.split()` pins every token boundary: it is empty for a name that is all whitespace,
      and otherwise it is the first token followed by the split of what comes after that
      token. Together with `FirstToken`'s contract this determines every piece as a maximal
      run of non-whitespace characters. */
  lemma SplitPeelsFirstToken(s: string)
    ensures AllSpace(s) ==> Split(s) == []
    ensures !AllSpace(s) ==>
      Split(s) == [FirstToken(s).value] + Split(StripLeading(s)[|FirstToken(s).value|..])
  {
    ScanFindsFirstToken(s, []);
    if !AllSpace(s) {
      var t := StripLeading(s);
      var token := FirstToken(s).value;
      MaximalRunIsLeadingRun(t, token);
      var rest := t[|token|..];
      ScanSkipsLeadingSpace(s, []);
      ScanReadsRun(t, [], []);
      assert [] + token == token;
      ScanClosesToken(rest, token);
      assert Split(s) == SplitScan(t, [], []) == SplitScan(rest, token, []);
    }
  }

  /** The tokens written one after another. */
  function Concat(ts: seq<string>): string
    decreases |ts|
  {
    if ts == [] then [] else ts[0] + Concat(ts[1..])
  }

  /** `s` with every whitespace character deleted. */
  function WithoutSpaces(s: string): string
    decreases |s|
  {
    if s == [] then [] else (if IsSpace(s[0]) then [] else [s[0]]) + WithoutSpaces(s[1..])
  }

  lemma {:induction false} ConcatAppend(a: seq<string>, b: seq<string>)
    ensures Concat(a + b) == Concat(a) + Concat(b)
    decreases |a|
  {
    if a != [] {
      ConcatAppend(a[1..], b);
      assert (a + b)[1..] == a[1..] + b;
    } else {
      assert a + b == b;
    }
  }

  lemma {:induction false} ScanKeepsCharacters(s: string, word: string, done: seq<string>)
    ensures Concat(SplitScan(s, word, done)) == Concat(done) + word + WithoutSpaces(s)
    decreases |s|
  {
    if s == [] {
      ConcatAppend(done, [word]);
    } else if IsSpace(s[0]) {
      ConcatAppend(done, [word]);
      ScanKeepsCharacters(s[1..], [], Close(done, word));
    } else {
      ScanKeepsCharacters(s[1..], word + [s[0]], done);
    }
  }

  /** Splitting loses nothing but whitespace: the tokens, written back to back, are the
      non-whitespace characters of `s` in order. */
  lemma SplitKeepsNonSpace(s: string)
    ensures Concat(Split(s)) == WithoutSpaces(s)
  {
    ScanKeepsCharacters(s, [], []);
  }
}
