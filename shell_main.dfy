/** The part of the shell's main loop that prepares a command: the
    background flag is cleared, `setup()` reads and splits the line, and
    the arguments after the program name are counted and copied into an
    `options` array, one fewer when the command runs in the background. */
module ShellMain {
  import opened Tokenizer
  import opened TokenizerProperties

  /** The number of options main copies, given the index `argEnd` at which
      the argument count stopped: the arguments after the program name, less
      the last of them when the background flag is set. That last argument
      is the empty one a separate '&' leaves behind, but an '&' attached to
      the last word raises the flag too, and then a real option is dropped
      (see `AttachedAmpersand`). The options always fit the `argEnd - 1`
      slots main allocates, and one is dropped exactly when the command runs
      in the background. */
  function NumOptions(argEnd: int, background: bool): (r: int)
    ensures r <= argEnd - 1
    ensures r == argEnd - 1 <==> !background
  {
    if background then argEnd - 2 else argEnd - 1
  }

  /** The counting loop: the least index from 1 on whose entry is NULL,
      never going past MAX_LINE. Entry 0 is not examined. */
  method ArgEnd(args: array<int>) returns (i: int)
    requires args.Length == MAX_LINE + 1
    ensures 1 <= i <= MAX_LINE
    ensures i < MAX_LINE ==> args[i] == NULL
    ensures forall k :: 1 <= k < i ==> args[k] != NULL
  {
    i := 1;
    while i < MAX_LINE && args[i] != NULL
      invariant 1 <= i <= MAX_LINE
      invariant forall k :: 1 <= k < i ==> args[k] != NULL
    {
      i := i + 1;
    }
  }

  /** Counts the arguments and copies the options `args[1..numOpt]` into a
      new array of `i - 1` slots. */
  method CollectOptions(args: array<int>, background: bool)
    returns (i: int, numOpt: int, options: array<int>)
    requires args.Length == MAX_LINE + 1
    ensures 1 <= i <= MAX_LINE
    ensures i < MAX_LINE ==> args[i] == NULL
    ensures forall k :: 1 <= k < i ==> args[k] != NULL
    ensures numOpt == NumOptions(i, background) && numOpt <= i - 1
    ensures fresh(options) && options.Length == i - 1
    ensures forall j :: 0 <= j < numOpt ==> options[j] == args[j + 1]
  {
    i := ArgEnd(args);
    options := new int[i - 1];
    var j := 0;
    numOpt := NumOptions(i, background);
    while j < numOpt
      invariant 0 <= j <= i - 1 && (numOpt >= 0 ==> j <= numOpt)
      invariant options.Length == i - 1 && numOpt <= i - 1 && i <= MAX_LINE
      invariant forall k :: 0 <= k < j ==> options[k] == args[k + 1]
    {
      options[j] := args[j + 1];
      j := j + 1;
    }
  }

  /** One pass of the main loop up to the launch of the command: the flag
      is cleared, the line of `length` characters is scanned in place, and
      for a parsed line the options are collected. A read that ends the
      program changes nothing. For a parsed line the buffer and `args` are
      left as `setup()` leaves them, the count stops at the first NULL in
      `args` from index 1 on (when the line has no argument at all, that is
      wherever the first NULL of the old `args[1..]` lies), and the options
      are copied from
      `args`. When the line has at least one argument, the count is exactly
      the number of arguments and the options are the recorded arguments
      after the first. */
  method PrepareCommand(inputBuffer: array<char>, args: array<int>, length: int)
    returns (r: SetupResult, background: bool, i: int, numOpt: int, options: array<int>)
    requires inputBuffer.Length == MAX_LINE && args.Length == MAX_LINE + 1
    requires length <= MAX_LINE
    modifies inputBuffer, args
    ensures length == 0 <==> r == Exit(0)
    ensures length < 0 <==> r == Exit(-1)
    ensures r.Exit? ==> unchanged(inputBuffer) && unchanged(args)
    ensures length > 0 ==> r.Parsed? && background == ('&' in old(inputBuffer[..length]))
    ensures r.Parsed? ==>
      var tokens := Scan(old(inputBuffer[..length])).tokens;
      && r.ct == |tokens| <= length
      && args[..r.ct] == tokens
      && args[r.ct] == NULL
      && (forall k :: r.ct < k < args.Length ==> args[k] == old(args[k]))
      && inputBuffer[..length] == Terminated(old(inputBuffer[..length]))
      && inputBuffer[length..] == old(inputBuffer[length..])
    ensures r.Parsed? ==>
      && 1 <= i <= MAX_LINE
      && (i < MAX_LINE ==> args[i] == NULL)
      && (forall k :: 1 <= k < i ==> args[k] != NULL)
      && numOpt == NumOptions(i, background) && numOpt <= i - 1
      && fresh(options) && options.Length == i - 1
      && (forall j :: 0 <= j < numOpt ==> options[j] == args[j + 1])
    ensures r.Parsed? && r.ct >= 1 ==>
      var tokens := Scan(old(inputBuffer[..length])).tokens;
      && i == r.ct
      && (forall j :: 0 <= j < numOpt ==> options[j] == tokens[j + 1])
  {
    ghost var buf0 := inputBuffer[..];
    background := false;
    r, background := Setup(inputBuffer, args, length, background);
    if r.Exit? {
      i, numOpt := 0, 0;
      options := new int[0];
      return;
    }
    ghost var line := buf0[..length];
    assert line == old(inputBuffer[..length]);
    assert inputBuffer[..length] == Terminated(line);
    i, numOpt, options := CollectOptions(args, background);
    if r.ct >= 1 {
      RecordedStartsOrdered(line, |line|);
      assert forall k :: 1 <= k < r.ct ==> args[k] != NULL by {
        forall k | 1 <= k < r.ct ensures args[k] != NULL {
          assert args[k] == args[..r.ct][k];
        }
      }
      forall j | 0 <= j < numOpt ensures options[j] == Scan(line).tokens[j + 1] {
        assert args[j + 1] == args[..r.ct][j + 1];
      }
    }
  }

  /** A lone '&' after a separator opens an argument of its own, which the
      scan turns into an empty string, and raises the flag. When the text
      before the '&' holds a word, main counts exactly the arguments and
      drops one option, so exactly the options of the same line without the
      '&' are copied. (When it holds none, the line without the '&' has no
      argument and main's count runs into the old `args[1..]` instead.) */
  lemma StandaloneAmpersand(p: seq<char>)
    requires |p| > 0 && IsSeparator(p[|p| - 1])
    ensures var withAmp := Scan(p + ['&', '\n']);
            var without := Scan(p + ['\n']);
      && withAmp.tokens == without.tokens + [|p|]
      && withAmp.background
      && Terminated(p + ['&', '\n'])[|p|] == '\0'
      && CString(Terminated(p + ['&', '\n']), |p|) == []
      && (without.tokens != [] ==>
            NumOptions(|withAmp.tokens|, true) == NumOptions(|without.tokens|, false))
  {
    var a := p + ['&', '\n'];
    var b := p + ['\n'];
    assert a[..|p|] == p[..|p|] && b[..|p|] == p[..|p|];
    ScanPrefixDependsOnPrefix(a, p, |p|);
    ScanPrefixDependsOnPrefix(b, p, |p|);
    assert ScanPrefix(p, |p|).start == -1;
    assert a[|p|] == '&' && a[|p| + 1] == '\n';
    assert b[|p|] == '\n';
    assert ScanPrefix(a, |p| + 1) == ScanState(|p|, ScanPrefix(p, |p|).tokens, true);
    assert Scan(a) == ScanState(|p|, ScanPrefix(p, |p|).tokens + [|p|], true);
    assert Scan(b) == ScanState(-1, ScanPrefix(p, |p|).tokens, ScanPrefix(p, |p|).background);
    assert Terminated(a)[|p|] == '\0';
  }

  /** The line "sleep 5 &" followed by a newline: three arguments start at
      0, 6 and 8, the last of them empty, the command runs in the
      background, and main copies the single option "5". */
  lemma SleepInBackground()
    ensures var s := "sleep 5 &\n";
      && Scan(s).tokens == [0, 6, 8]
      && Scan(s).background
      && CString(Terminated(s), 0) == "sleep"
      && CString(Terminated(s), 6) == "5"
      && CString(Terminated(s), 8) == ""
      && NumOptions(|Scan(s).tokens|, Scan(s).background) == 1
  {
    var s := "sleep 5 &\n";
    ScanWord(s, 0, 5);
    assert ScanPrefix(s, 6) == ScanState(-1, [0], false);
    ScanWord(s, 6, 7);
    assert ScanPrefix(s, 8) == ScanState(-1, [0, 6], false);
    assert ScanPrefix(s, 10) == ScanState(8, [0, 6, 8], true);
    var b := Terminated(s);
    assert b == ['s', 'l', 'e', 'e', 'p', '\0', '5', '\0', '\0', '\0'];
    assert CString(b, 5) == [];
    assert CString(b, 3) == "ep";
    assert CString(b, 1) == "leep";
    assert CString(b, 7) == [];
  }

  /** An '&' attached to the last word adds no argument: the word open at
      the end of `p` is still the last argument, the '&' becomes '\0', and
      the flag is raised, so main copies one option fewer than for the same
      line without the '&', dropping that word. */
  lemma AttachedAmpersand(p: seq<char>)
    requires |p| > 0 && !IsBlank(p[|p| - 1])
    ensures var withAmp := Scan(p + ['&', '\n']);
            var without := Scan(p + ['\n']);
      && withAmp.tokens == without.tokens
      && without.tokens != []
      && without.tokens[|without.tokens| - 1] == ScanPrefix(p, |p|).start
      && withAmp.background
      && Terminated(p + ['&', '\n'])[|p|] == '\0'
      && NumOptions(|withAmp.tokens|, true) == NumOptions(|without.tokens|, false) - 1
  {
    var a := p + ['&', '\n'];
    var b := p + ['\n'];
    assert a[..|p|] == p[..|p|] && b[..|p|] == p[..|p|];
    ScanPrefixDependsOnPrefix(a, p, |p|);
    ScanPrefixDependsOnPrefix(b, p, |p|);
    var st := ScanPrefix(p, |p|);
    assert st == Step(ScanPrefix(p, |p| - 1), p[|p| - 1], |p| - 1);
    assert st.start != -1;
    assert a[|p|] == '&' && a[|p| + 1] == '\n';
    assert b[|p|] == '\n';
    assert ScanPrefix(a, |p| + 1) == ScanState(st.start, st.tokens, true);
    assert Scan(a) == ScanState(st.start, st.tokens + [st.start], true);
    assert Scan(b) == ScanState(st.start, st.tokens + [st.start], st.background);
    assert Terminated(a)[|p|] == '\0';
  }

  /** The line "sleep 5&" followed by a newline: the '&' ends the word "5"
      without opening an argument of its own, so there are two arguments,
      yet the flag is raised and main copies no option at all, dropping
      "5". */
  lemma SleepAttachedInBackground()
    ensures var s := "sleep 5&\n";
      && Scan(s).tokens == [0, 6]
      && Scan(s).background
      && CString(Terminated(s), 0) == "sleep"
      && CString(Terminated(s), 6) == "5"
      && NumOptions(|Scan(s).tokens|, Scan(s).background) == 0
  {
    var s := "sleep 5&\n";
    ScanWord(s, 0, 5);
    assert ScanPrefix(s, 6) == ScanState(-1, [0], false);
    ScanWord(s, 6, 8);
    assert ScanPrefix(s, 9) == ScanState(6, [0, 6], true);
    var b := Terminated(s);
    assert b == ['s', 'l', 'e', 'e', 'p', '\0', '5', '\0', '\0'];
    assert CString(b, 5) == [];
    assert CString(b, 3) == "ep";
    assert CString(b, 1) == "leep";
    assert CString(b, 7) == [];
  }
}
