/** The command-line tokenizer `setup()` of the shell.

    `setup()` scans one line held in a fixed buffer of MAX_LINE characters,
    overwrites every space, tab, newline and '&' with '\0', records in `args`
    the index at which each argument starts, ends `args` with a NULL
    sentinel, and raises the background flag when it meets an '&'.

    The scan is specified by `Scan`, a function over the prefix of the line
    read so far that takes exactly the steps of the loop; `Setup` is the
    in-place method and is proved against it. */
module Tokenizer {

  /** Characters per line, and per command. */
  const MAX_LINE: int := 80

  /** The NULL pointer that ends the argument vector. Arguments are
      represented by the index of their first character in the buffer. */
  const NULL: int := -1

  /** Characters that end an argument and reset the open one. */
  predicate IsSeparator(c: char) {
    c == ' ' || c == '\t'
  }

  /** Characters the scan treats as whitespace: the separators and the
      line terminator. Every other character belongs to some argument. */
  predicate IsBlank(c: char) {
    IsSeparator(c) || c == '\n'
  }

  /** The character a position of the buffer holds after the scan:
      whitespace and '&' become '\0', everything else is kept. */
  function ClearedChar(c: char): char {
    if IsBlank(c) || c == '&' then '\0' else c
  }

  /** The scanned line as the buffer holds it after `setup()`. */
  function Terminated(s: seq<char>): seq<char> {
    seq(|s|, j requires 0 <= j < |s| => ClearedChar(s[j]))
  }

  /** The loop variables of `setup()` after some prefix of the line:
      `start` is the start of the open argument or -1, `tokens` holds the
      arguments recorded so far (args[0..ct)), `background` whether an
      '&' has been seen. */
  datatype ScanState = ScanState(start: int, tokens: seq<int>, background: bool)

  /** The open argument appended to the recorded ones, if there is one. */
  function Record(st: ScanState): seq<int> {
    if st.start != -1 then st.tokens + [st.start] else st.tokens
  }

  /** One iteration of the scanning loop, on character `c` at index `i`.
      A separator records the open argument and closes it; a newline
      records the open argument but leaves `start` as it is; any other
      character opens an argument if none is open, and an '&' raises the
      background flag. An iteration never changes an argument already
      recorded and records at most one more, exactly when it meets
      whitespace with an argument open; it never clears the flag. */
  function Step(st: ScanState, c: char, i: int): (r: ScanState)
    requires 0 <= i
    ensures st.tokens <= r.tokens && |r.tokens| <= |st.tokens| + 1
    ensures |r.tokens| == |st.tokens| + 1 <==> IsBlank(c) && st.start != -1
    ensures r.background <==> st.background || c == '&'
    ensures r.start == -1 <==> IsSeparator(c) || (st.start == -1 && c == '\n')
  {
    if IsSeparator(c) then
      ScanState(-1, Record(st), st.background)
    else if c == '\n' then
      ScanState(st.start, Record(st), st.background)
    else
      ScanState(if st.start == -1 then i else st.start, st.tokens, st.background || c == '&')
  }

  /** The state of the scan after reading the first `n` characters of
      `s`. At most one argument is recorded per character, so the count
      never exceeds the number of characters read, and an open argument
      starts among them. */
  function ScanPrefix(s: seq<char>, n: nat): (r: ScanState)
    requires n <= |s|
    ensures |r.tokens| <= n
    ensures -1 <= r.start < n
  {
    if n == 0 then ScanState(-1, [], false)
    else Step(ScanPrefix(s, n - 1), s[n - 1], n - 1)
  }

  /** The background flag is raised exactly when an '&' has been read. */
  lemma {:induction false} BackgroundIffAmpersand(s: seq<char>, n: nat)
    requires n <= |s|
    ensures ScanPrefix(s, n).background <==> '&' in s[..n]
  {
    if n > 0 {
      BackgroundIffAmpersand(s, n - 1);
      assert s[..n] == s[..n - 1] + [s[n - 1]];
    }
  }

  /** The state of the scan after reading the whole of `s`: at most one
      argument per character, and the flag raised exactly when `s` holds
      an '&'. */
  function Scan(s: seq<char>): (r: ScanState)
    ensures |r.tokens| <= |s| && -1 <= r.start < |s|
    ensures r.background <==> '&' in s
  {
    BackgroundIffAmpersand(s, |s|);
    assert s[..|s|] == s;
    ScanPrefix(s, |s|)
  }

  /** What `setup()` ends with: the program exits with a status (end of
      input or a failed read), or `ct` arguments were found. */
  datatype SetupResult = Exit(status: int) | Parsed(ct: nat)

  /** `setup()`, with the result of `read` given as `length` (the bytes it
      read already stand in `inputBuffer`). `background` is the flag the
      caller passes in; `newBackground` is its value on return. */
  method Setup(inputBuffer: array<char>, args: array<int>, length: int, background: bool)
    returns (r: SetupResult, newBackground: bool)
    requires inputBuffer.Length == MAX_LINE && args.Length == MAX_LINE + 1
    requires length <= MAX_LINE
    modifies inputBuffer, args
    ensures length == 0 <==> r == Exit(0)
    ensures length < 0 <==> r == Exit(-1)
    ensures length > 0 <==> r.Parsed?
    ensures r.Exit? ==> unchanged(inputBuffer) && unchanged(args) && newBackground == background
    ensures r.Parsed? ==>
      var st := Scan(old(inputBuffer[..length]));
      && r.ct <= length
      && r.ct == |st.tokens|
      && args[..r.ct] == st.tokens
      && args[r.ct] == NULL
      && (forall k :: r.ct < k < args.Length ==> args[k] == old(args[k]))
      && newBackground == (background || st.background)
      && (forall k :: 0 <= k < length ==> inputBuffer[k] == ClearedChar(old(inputBuffer[k])))
      && (forall k :: length <= k < inputBuffer.Length ==> inputBuffer[k] == old(inputBuffer[k]))
  {
    newBackground := background;
    if length == 0 {
      return Exit(0), newBackground;
    }
    if length < 0 {
      return Exit(-1), newBackground;
    }
    ghost var line := inputBuffer[..length];
    ghost var st := ScanPrefix(line, 0);
    var ct := 0;
    var start := -1;
    var i := 0;
    while i < length
      invariant 0 <= i <= length
      invariant st == ScanPrefix(line, i)
      invariant st.start == start && |st.tokens| == ct
      invariant forall k :: 0 <= k < ct ==> args[k] == st.tokens[k]
      invariant newBackground == (background || st.background)
      invariant forall k :: 0 <= k < i ==> inputBuffer[k] == ClearedChar(line[k])
      invariant forall k :: i <= k < inputBuffer.Length ==> inputBuffer[k] == old(inputBuffer[k])
      invariant forall k :: ct < k < args.Length ==> args[k] == old(args[k])
    {
      var c := inputBuffer[i];
      st := Step(st, c, i);
      assert c == line[i];
      if c == ' ' || c == '\t' {
        if start != -1 {
          args[ct] := start;
          ct := ct + 1;
        }
        inputBuffer[i] := '\0';
        start := -1;
      } else if c == '\n' {
        if start != -1 {
          args[ct] := start;
          ct := ct + 1;
        }
        inputBuffer[i] := '\0';
        args[ct] := NULL;
      } else {
        if start == -1 {
          start := i;
        }
        if c == '&' {
          newBackground := true;
          inputBuffer[i] := '\0';
        }
      }
      i := i + 1;
    }
    assert line == old(inputBuffer[..length]);
    args[ct] := NULL;
    assert args[..ct] == st.tokens;
    r := Parsed(ct);
  }
}
