/** Properties of the scan performed by `setup()`: what the background flag
    means, where the recorded arguments start and in which order, how the
    arguments relate to the whitespace-delimited words of a line, and the
    quirks of the newline and of a lone '&'. */
module TokenizerProperties {
  import opened Tokenizer

  /** The scan of the first `n` characters depends on those characters only. */
  lemma {:induction false} ScanPrefixDependsOnPrefix(s: seq<char>, t: seq<char>, n: nat)
    requires n <= |s| && n <= |t|
    requires s[..n] == t[..n]
    ensures ScanPrefix(s, n) == ScanPrefix(t, n)
  {
    if n > 0 {
      assert s[..n - 1] == s[..n][..n - 1] && t[..n - 1] == t[..n][..n - 1];
      assert s[n - 1] == s[..n][n - 1];
      assert t[n - 1] == t[..n][n - 1];
      ScanPrefixDependsOnPrefix(s, t, n - 1);
    }
  }

  /** Every recorded argument starts at a character of the line that is
      not whitespace, and the recorded starts never decrease; the open
      argument, if any, starts at no earlier index than any recorded one. */
  lemma {:induction false} RecordedStartsOrdered(s: seq<char>, n: nat)
    requires n <= |s|
    ensures var st := ScanPrefix(s, n);
      && (forall k :: 0 <= k < |st.tokens| ==> 0 <= st.tokens[k] < n && !IsBlank(s[st.tokens[k]]))
      && (forall k, l :: 0 <= k < l < |st.tokens| ==> st.tokens[k] <= st.tokens[l])
      && (st.start != -1 ==>
            !IsBlank(s[st.start]) && forall k :: 0 <= k < |st.tokens| ==> st.tokens[k] <= st.start)
  {
    if n > 0 {
      RecordedStartsOrdered(s, n - 1);
    }
  }

  /** The positions at which the scan of the first `n` characters recorded
      an argument: the value of the loop index at each `ct++`. */
  ghost function RecordPositions(s: seq<char>, n: nat): seq<int>
    requires n <= |s|
  {
    if n == 0 then []
    else RecordPositions(s, n - 1)
         + (if IsBlank(s[n - 1]) && ScanPrefix(s, n - 1).start != -1 then [n - 1] else [])
  }

  /** Arguments are recorded at whitespace only, one per whitespace position
      at most, and each recorded start lies strictly before the whitespace
      that recorded it. */
  lemma {:induction false} RecordedBeforeSeparator(s: seq<char>, n: nat)
    requires n <= |s|
    ensures var st := ScanPrefix(s, n); var at := RecordPositions(s, n);
      && |at| == |st.tokens|
      && (forall k :: 0 <= k < |at| ==> st.tokens[k] < at[k] && 0 <= at[k] < n && IsBlank(s[at[k]]))
      && (forall k, l :: 0 <= k < l < |at| ==> at[k] < at[l])
  {
    if n > 0 {
      RecordedBeforeSeparator(s, n - 1);
    }
  }

  /** Index `i` starts a maximal run of non-whitespace characters. */
  ghost predicate IsRunStart(s: seq<char>, i: int)
    requires 0 <= i < |s|
  {
    !IsBlank(s[i]) && (i == 0 || IsBlank(s[i - 1]))
  }

  /** The starts of the runs among the first `n` characters, left to right. */
  ghost function RunStartsUpTo(s: seq<char>, n: nat): seq<int>
    requires n <= |s|
  {
    if n == 0 then []
    else RunStartsUpTo(s, n - 1) + (if IsRunStart(s, n - 1) then [n - 1] else [])
  }

  /** The starts of the whitespace-delimited words of `s`, left to right. */
  ghost function RunStarts(s: seq<char>): seq<int> {
    RunStartsUpTo(s, |s|)
  }

  /** `RunStartsUpTo` lists exactly the run starts, in increasing order. */
  lemma {:induction false} RunStartsCharacterized(s: seq<char>, n: nat)
    requires n <= |s|
    ensures forall x :: x in RunStartsUpTo(s, n) <==> 0 <= x < n && IsRunStart(s, x)
    ensures forall k, l :: 0 <= k < l < |RunStartsUpTo(s, n)| ==> RunStartsUpTo(s, n)[k] < RunStartsUpTo(s, n)[l]
    ensures forall k :: 0 <= k < |RunStartsUpTo(s, n)| ==> RunStartsUpTo(s, n)[k] < n
  {
    if n > 0 {
      RunStartsCharacterized(s, n - 1);
    }
  }

  /** Before any newline, the recorded arguments together with the open
      one are the starts of the runs read so far, and an argument is open
      exactly when the last character read is not whitespace. */
  lemma {:induction false} ScanFollowsRuns(s: seq<char>, n: nat)
    requires n <= |s|
    requires forall j :: 0 <= j < n ==> s[j] != '\n'
    ensures Record(ScanPrefix(s, n)) == RunStartsUpTo(s, n)
    ensures ScanPrefix(s, n).start != -1 <==> n > 0 && !IsBlank(s[n - 1])
  {
    if n > 0 {
      ScanFollowsRuns(s, n - 1);
    }
  }

  /** A word that runs to the end of newline-free text is never recorded:
      the recorded arguments are all the word starts but the last, and the
      last one is the argument still open when the scan ends. */
  lemma UnterminatedWordDropped(s: seq<char>)
    requires |s| > 0 && !IsBlank(s[|s| - 1])
    requires forall j :: 0 <= j < |s| ==> s[j] != '\n'
    ensures RunStarts(s) != []
    ensures Scan(s).tokens == RunStarts(s)[..|RunStarts(s)| - 1]
    ensures Scan(s).start == RunStarts(s)[|RunStarts(s)| - 1]
  {
    ScanFollowsRuns(s, |s|);
    assert Record(Scan(s)) == Scan(s).tokens + [Scan(s).start];
  }

  /** For a line whose only newline is its last character, the recorded
      arguments are the starts of its words, left to right. An '&' makes
      no difference to where arguments start. */
  lemma TokensAreRunStarts(s: seq<char>)
    requires |s| > 0 && s[|s| - 1] == '\n'
    requires forall j :: 0 <= j < |s| - 1 ==> s[j] != '\n'
    ensures Scan(s).tokens == RunStarts(s)
  {
    ScanFollowsRuns(s, |s| - 1);
  }

  /** The characters of the C string that starts at index `t` of `b`. */
  ghost function CString(b: seq<char>, t: nat): seq<char>
    decreases |b| - t
  {
    if t >= |b| || b[t] == '\0' then [] else [b[t]] + CString(b, t + 1)
  }

  /** The index of the first whitespace character at or after `t`, or the
      length of `s` if there is none. */
  ghost function WordEnd(s: seq<char>, t: nat): nat
    requires t <= |s|
    decreases |s| - t
  {
    if t == |s| || IsBlank(s[t]) then t else WordEnd(s, t + 1)
  }

  /** In a line ending in whitespace, every word ends inside the line, and
      the scan leaves a '\0' right after it, whatever else the line holds. */
  lemma {:induction false} WordEndsInNul(s: seq<char>, t: nat)
    requires t < |s| && IsBlank(s[|s| - 1])
    ensures t <= WordEnd(s, t) < |s|
    ensures Terminated(s)[WordEnd(s, t)] == '\0'
    decreases |s| - t
  {
    if !IsBlank(s[t]) {
      WordEndsInNul(s, t + 1);
    }
  }

  /** In a line without '&' and without '\0', the argument that starts at
      `t` reads, after the scan, as the word that starts there. */
  lemma {:induction false} ArgumentIsWord(s: seq<char>, t: nat)
    requires t <= |s|
    requires '&' !in s && '\0' !in s
    ensures t <= WordEnd(s, t) <= |s|
    ensures CString(Terminated(s), t) == s[t..WordEnd(s, t)]
    decreases |s| - t
  {
    if t < |s| && !IsBlank(s[t]) {
      ArgumentIsWord(s, t + 1);
      assert s[t..WordEnd(s, t)] == [s[t]] + s[t + 1..WordEnd(s, t)];
    }
  }

  /** Reading characters that are not whitespace records nothing; it opens
      an argument at the first of them if none was open, and keeps the open
      one otherwise. */
  lemma {:induction false} ScanWord(s: seq<char>, a: nat, b: nat)
    requires a <= b <= |s|
    requires forall j :: a <= j < b ==> !IsBlank(s[j])
    ensures ScanPrefix(s, b).tokens == ScanPrefix(s, a).tokens
    ensures ScanPrefix(s, b).start ==
              if ScanPrefix(s, a).start == -1 && a < b then a else ScanPrefix(s, a).start
  {
    if a < b {
      ScanWord(s, a, b - 1);
    }
  }

  /** A newline does not close the open argument: in the line
      `w` newline `v` newline, where `w` and `v` are single words, both
      recorded arguments start at index 0, so the text of `v` is never
      recorded as an argument of its own. */
  lemma EmbeddedNewline(w: seq<char>, v: seq<char>)
    requires |w| > 0 && |v| > 0
    requires forall j :: 0 <= j < |w| ==> !IsBlank(w[j])
    requires forall j :: 0 <= j < |v| ==> !IsBlank(v[j])
    ensures Scan(w + ['\n'] + v + ['\n']).tokens == [0, 0]
  {
    var s := w + ['\n'] + v + ['\n'];
    var m := |w|;
    ScanWord(s, 0, m);
    assert ScanPrefix(s, m + 1) == ScanState(0, [0], ScanPrefix(s, m).background);
    ScanWord(s, m + 1, m + 1 + |v|);
    assert s[m + 1 + |v|] == '\n';
  }
}
