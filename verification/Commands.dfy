/** Command parsing (parse_command in crates/protocol/src/lib.rs) and the lines the relay client prints. */
module Commands {
  import opened Wrappers
  import opened Tables
  import opened Addresses
  import opened Session

  const U64_MAX := 0xffff_ffff_ffff_ffff

  /** The server's limit for one command line, its ending included. */
  const COMMAND_LINE := 538

  datatype ParseError = Syntax | UnsupportedParameter

  predicate Same(a: string, b: string) { Lower(a) == Lower(b) }

  /** Position of the first occurrence, as `split_once` finds it. */
  function Find(s: string, c: char): (r: Option<nat>)
    ensures r.Some? ==> r.value < |s| && s[r.value] == c && forall i :: 0 <= i < r.value ==> s[i] != c
    ensures r.None? ==> c !in s
  {
    if s == "" then None
    else if s[0] == c then Some(0)
    else
      var rest := Find(s[1..], c);
      if rest.None? then None else Some(rest.value + 1)
  }

  function TrimStart(s: string): string { if s != "" && s[0] == ' ' then TrimStart(s[1..]) else s }
  function TrimEnd(s: string): string { if s != "" && s[|s| - 1] == ' ' then TrimEnd(s[..|s| - 1]) else s }
  function Trim(s: string): string { TrimEnd(TrimStart(s)) }

  function NonEmpty(parts: seq<string>): seq<string> {
    if parts == [] then [] else (if parts[0] == "" then [] else [parts[0]]) + NonEmpty(parts[1..])
  }

  /** `split_ascii_whitespace`; no other whitespace than the space gets this far. */
  function Words(s: string): seq<string> { NonEmpty(Split(s, ' ')) }

  predicate Digit(c: char) { '0' <= c <= '9' }

  /** The number a string of digits denotes. */
  function Value(s: string): nat {
    if s == "" || !Digit(s[|s| - 1]) then 0 else Value(s[..|s| - 1]) * 10 + (s[|s| - 1] as int - '0' as int)
  }

  function ParsePath(args: string, prefix: string): Result<(string, string), ParseError> {
    if |args| < |prefix| || !Same(args[..|prefix|], prefix) then Err(Syntax)
    else
      var rest := args[|prefix|..];
      if rest == "" || rest[0] != '<' then Err(Syntax)
      else
        var close := Find(rest[1..], '>');
        if close.None? then Err(Syntax)
        else
          var path, suffix := rest[1..][..close.value], rest[1..][close.value + 1..];
          if suffix != "" && suffix[0] != ' ' then Err(Syntax) else Ok((path, Trim(suffix)))
  }

  datatype Parameters = Parameters(size: Option<nat>, body: Option<BodyMode>)

  function Parameter(p: Parameters, word: string): Result<Parameters, ParseError> {
    var cut := Find(word, '=');
    if cut.None? then Err(UnsupportedParameter)
    else
      var key, value := word[..cut.value], word[cut.value + 1..];
      if Same(key, "SIZE") then
        if p.size.Some? || !(1 <= |value| <= 20) || (exists i :: 0 <= i < |value| && !Digit(value[i])) then Err(Syntax)
        else Ok(p.(size := Some(if Value(value) <= U64_MAX then Value(value) else U64_MAX)))
      else if Same(key, "BODY") then
        if p.body.Some? then Err(Syntax)
        else if Same(value, "7BIT") then Ok(p.(body := Some(SevenBit)))
        else if Same(value, "8BITMIME") then Ok(p.(body := Some(EightBitMime)))
        else Err(UnsupportedParameter)
      else Err(UnsupportedParameter)
  }

  function ReadParameters(words: seq<string>): Result<Parameters, ParseError> {
    if words == [] then Ok(Parameters(None, None))
    else
      var before :- ReadParameters(words[..|words| - 1]);
      Parameter(before, words[|words| - 1])
  }

  function ParseMail(args: string): Result<Command, ParseError> {
    var parts :- ParsePath(args, "FROM:");
    if parts.0 != "" && Parse(parts.0).None? then Err(Syntax)
    else
      var found :- ReadParameters(Words(parts.1));
      Ok(Mail(if parts.0 == "" then None else Parse(parts.0), found.size, found.body))
  }

  function ParseRcpt(args: string): Result<Command, ParseError> {
    var parts :- ParsePath(args, "TO:");
    if parts.1 != "" then Err(UnsupportedParameter)
    else if Parse(parts.0).None? then Err(Syntax)
    else Ok(Rcpt(Parse(parts.0).value))
  }

  predicate Printable(line: string) { forall i :: 0 <= i < |line| ==> ' ' <= line[i] <= '~' }

  function Bare(args: string, c: Command): Result<Command, ParseError> { if args == "" then Ok(c) else Err(Syntax) }

  function ParseVerb(verb: string, args: string): Result<Command, ParseError> {
    if Same(verb, "EHLO") || Same(verb, "HELO") then
      if args == "" || ' ' in args then Err(Syntax)
      else Ok(if Same(verb, "EHLO") then Ehlo(args) else Helo(args))
    else if Same(verb, "MAIL") then ParseMail(args)
    else if Same(verb, "RCPT") then ParseRcpt(args)
    else if Same(verb, "DATA") then Bare(args, Data)
    else if Same(verb, "RSET") then Bare(args, Reset)
    else if Same(verb, "NOOP") then Ok(Noop)
    else if Same(verb, "HELP") then Ok(Help)
    else if Same(verb, "VRFY") then if args != "" then Ok(Verify) else Err(Syntax)
    else if Same(verb, "QUIT") then Bare(args, Quit)
    else if Same(verb, "STARTTLS") then Bare(args, StartTls)
    else Ok(Unsupported)
  }

  function ParseCommand(line: string): Result<Command, ParseError> {
    if !Printable(line) then Err(Syntax)
    else
      var cut := Find(line, ' ');
      if cut.None? then ParseVerb(line, "") else ParseVerb(line[..cut.value], Trim(line[cut.value + 1..]))
  }

  /** The parameter loop of MAIL. */
  method ReadParameterLoop(words: seq<string>) returns (r: Result<Parameters, ParseError>)
    ensures r == ReadParameters(words)
  {
    var found := Parameters(None, None);
    for i := 0 to |words|
      invariant ReadParameters(words[..i]) == Ok(found)
    {
      assert words[..i + 1][..i] == words[..i];
      var next := Parameter(found, words[i]);
      if next.Err? {
        Refused(words, i, next.error);
        return Err(next.error);
      }
      found := next.value;
    }
    assert words[..|words|] == words;
    return Ok(found);
  }

  lemma {:induction false} Refused(words: seq<string>, i: nat, e: ParseError)
    requires i < |words| && ReadParameters(words[..i + 1]) == Err(e)
    ensures ReadParameters(words) == Err(e)
  {
    if i + 1 == |words| {
      assert words[..i + 1] == words;
    } else {
      assert words[..|words| - 1][..i + 1] == words[..i + 1];
      Refused(words[..|words| - 1], i, e);
    }
  }

  // ---------------------------------------------------------------- what the client prints

  function Digits(n: nat): string {
    if n < 10 then [('0' as int + n) as char] else Digits(n / 10) + [('0' as int + n % 10) as char]
  }

  function BodyText(body: BodyMode): string { if body == EightBitMime then "8BITMIME" else "7BIT" }

  function MailWords(size: Option<nat>, body: Option<BodyMode>): seq<string> {
    (if size.Some? then ["SIZE=" + Digits(size.value)] else [])
    + (if body.Some? then ["BODY=" + BodyText(body.value)] else [])
  }

  /** Each word after one space. */
  function Spaced(words: seq<string>): string { if words == [] then "" else " " + words[0] + Spaced(words[1..]) }

  /** A path in angle brackets and the words after it. */
  function Args(prefix: string, path: string, words: seq<string>): string { prefix + "<" + path + ">" + Spaced(words) }

  function PathOf(sender: Option<Address>): string { if sender.Some? then sender.value else "" }

  function MailLine(sender: Option<Address>, size: Option<nat>, body: Option<BodyMode>): string {
    "MAIL" + " " + Args("FROM:", PathOf(sender), MailWords(size, body))
  }

  function RcptLine(recipient: Address): string { "RCPT" + " " + Args("TO:", recipient, []) }

  // ---------------------------------------------------------------- numbers

  lemma {:induction false} DigitsDenote(n: nat)
    ensures Value(Digits(n)) == n && Digits(n) != "" && forall i :: 0 <= i < |Digits(n)| ==> Digit(Digits(n)[i])
  {
    var last := [('0' as int + n % 10) as char];
    if n >= 10 {
      DigitsDenote(n / 10);
      assert Digits(n)[..|Digits(n)| - 1] == Digits(n / 10);
    }
  }

  function Pow10(k: nat): nat { if k == 0 then 1 else 10 * Pow10(k - 1) }

  lemma {:induction false} DigitsShort(n: nat, k: nat)
    requires k >= 1 && n < Pow10(k)
    ensures |Digits(n)| <= k
  {
    if n >= 10 {
      assert k >= 2;
      DigitsShort(n / 10, k - 1);
    }
  }

  lemma U64Digits(n: nat)
    requires n <= U64_MAX
    ensures |Digits(n)| <= 20
  {
    assert Pow10(20) == 100_000_000_000_000_000_000 by {
      assert Pow10(10) == 10_000_000_000;
      assert Pow10(20) == 10_000_000_000 * Pow10(10);
    }
    DigitsShort(n, 20);
  }

  // ---------------------------------------------------------------- taking the line apart again

  lemma FindAt(a: string, c: char, b: string)
    requires c !in a
    ensures Find(a + [c] + b, c) == Some(|a|)
  {
    var s := a + [c] + b;
    assert s[|a|] == c && forall i :: 0 <= i < |a| ==> s[i] == a[i];
  }

  /** A word of the command: not empty and without spaces. */
  predicate Word(w: string) { w != "" && ' ' !in w }

  predicate AllWords(words: seq<string>) { forall i :: 0 <= i < |words| ==> Word(words[i]) }

  lemma {:induction false} SplitSpaced(w: string, words: seq<string>)
    requires ' ' !in w && AllWords(words)
    ensures Split(w + Spaced(words), ' ') == [w] + words
    decreases |words|, |w|
  {
    var s := w + Spaced(words);
    if w != "" {
      SplitSpaced(w[1..], words);
      assert s[0] == w[0] && s[1..] == w[1..] + Spaced(words);
      assert [w[0]] + w[1..] == w;
    } else if words != [] {
      SplitSpaced(words[0], words[1..]);
      assert s[0] == ' ' && s[1..] == words[0] + Spaced(words[1..]);
      assert [words[0]] + words[1..] == words;
    }
  }

  lemma {:induction false} NonEmptyWords(words: seq<string>)
    requires AllWords(words)
    ensures NonEmpty(words) == words
  {
    if words != [] {
      NonEmptyWords(words[1..]);
      assert [words[0]] + words[1..] == words;
    }
  }

  lemma Regroup(a: string, b: string, c: string)
    ensures a + b + c == a + (b + c)
  {
  }

  lemma SpacedFront(words: seq<string>)
    requires words != []
    ensures Spaced(words) == " " + (words[0] + Spaced(words[1..]))
  {
    Regroup(" ", words[0], Spaced(words[1..]));
  }

  lemma {:induction false} SpacedEnds(w: string, words: seq<string>)
    requires Word(w) && AllWords(words)
    ensures var s := w + Spaced(words); s != "" && s[|s| - 1] != ' '
    decreases |words|
  {
    if words != [] {
      SpacedEnds(words[0], words[1..]);
      var s, tail := w + Spaced(words), words[0] + Spaced(words[1..]);
      SpacedFront(words);
      assert s == w + (" " + tail) && s[|s| - 1] == tail[|tail| - 1];
    } else {
      assert w[|w| - 1] in w;
    }
  }

  lemma TrimOne(tail: string)
    requires tail != "" && tail[0] != ' ' && tail[|tail| - 1] != ' '
    ensures Trim(" " + tail) == tail
  {
    assert (" " + tail)[1..] == tail;
    assert TrimStart(" " + tail) == TrimStart(tail) == tail;
  }

  lemma TrimSpaced(words: seq<string>)
    requires AllWords(words) && words != []
    ensures Trim(Spaced(words)) == words[0] + Spaced(words[1..])
  {
    var tail := words[0] + Spaced(words[1..]);
    SpacedEnds(words[0], words[1..]);
    assert words[0][0] in words[0] && tail[0] == words[0][0];
    TrimOne(tail);
    SpacedFront(words);
  }

  lemma SpacedWords(words: seq<string>)
    requires AllWords(words)
    ensures Words(Trim(Spaced(words))) == words
  {
    if words == [] {
      assert Split("", ' ') == [""] && NonEmpty([""]) == NonEmpty([""][1..]) == [];
    } else {
      TrimSpaced(words);
      SplitSpaced(words[0], words[1..]);
      assert [words[0]] + words[1..] == words;
      NonEmptyWords(words);
    }
  }

  lemma SizeWord(p: Parameters, n: nat)
    requires p.size.None? && n <= U64_MAX
    ensures Parameter(p, "SIZE=" + Digits(n)) == Ok(p.(size := Some(n)))
  {
    var word := "SIZE=" + Digits(n);
    FindAt("SIZE", '=', Digits(n));
    assert word == "SIZE" + ['='] + Digits(n);
    assert word[..4] == "SIZE" && word[5..] == Digits(n);
    DigitsDenote(n);
    U64Digits(n);
  }

  lemma BodyWord(p: Parameters, body: BodyMode)
    requires p.body.None?
    ensures Parameter(p, "BODY=" + BodyText(body)) == Ok(p.(body := Some(body)))
  {
    var word := "BODY=" + BodyText(body);
    FindAt("BODY", '=', BodyText(body));
    assert word == "BODY" + ['='] + BodyText(body);
    assert word[..4] == "BODY" && word[5..] == BodyText(body);
    assert Lower("BODY")[0] == 'b' && Lower("SIZE")[0] == 's';
  }

  lemma ReadOne(w: string, p: Parameters)
    requires Parameter(Parameters(None, None), w) == Ok(p)
    ensures ReadParameters([w]) == Ok(p)
  {
    assert [w][..0] == [];
  }

  lemma ReadTwo(w: string, p: Parameters, x: string, q: Parameters)
    requires ReadParameters([w]) == Ok(p) && Parameter(p, x) == Ok(q)
    ensures ReadParameters([w, x]) == Ok(q)
  {
    assert [w, x][..1] == [w];
  }

  lemma MailWordsRead(size: Option<nat>, body: Option<BodyMode>)
    requires size.Some? ==> size.value <= U64_MAX
    ensures ReadParameters(MailWords(size, body)) == Ok(Parameters(size, body))
  {
    var none := Parameters(None, None);
    if size.Some? {
      SizeWord(none, size.value);
      ReadOne("SIZE=" + Digits(size.value), Parameters(size, None));
    }
    if body.Some? {
      BodyWord(Parameters(size, None), body.value);
      if size.Some? {
        ReadTwo("SIZE=" + Digits(size.value), Parameters(size, None), "BODY=" + BodyText(body.value),
                Parameters(size, body));
      } else {
        ReadOne("BODY=" + BodyText(body.value), Parameters(None, body));
      }
    }
  }

  lemma MailWordsAreWords(size: Option<nat>, body: Option<BodyMode>)
    ensures AllWords(MailWords(size, body))
  {
    if size.Some? {
      DigitsDenote(size.value);
    }
  }

  /** A path printed between angle brackets is found again, with whatever words follow. */
  lemma PathRead(prefix: string, path: string, words: seq<string>)
    requires '>' !in path && AllWords(words)
    ensures ParsePath(Args(prefix, path, words), prefix) == Ok((path, Trim(Spaced(words))))
  {
    var args := Args(prefix, path, words);
    var rest := "<" + path + ">" + Spaced(words);
    assert args == prefix + rest && args[..|prefix|] == prefix && args[|prefix|..] == rest;
    var inner := path + ['>'] + Spaced(words);
    assert rest[0] == '<' && rest[1..] == inner;
    FindAt(path, '>', Spaced(words));
    assert inner[..|path|] == path && inner[|path| + 1..] == Spaced(words);
  }

  lemma AddressPath(a: Address)
    ensures '>' !in a && ' ' !in a && Printable(a) && a != ""
  {
    forall i | 0 <= i < |a| ensures a[i] != '>' && ' ' < a[i] <= '~' {
      AddressCharacters(a, i);
      PlainCharacter(a[i]);
    }
    NotEmpty();
  }

  lemma PlainCharacter(c: char)
    requires AddressChar(c)
    ensures c != '>' && ' ' < c <= '~'
  {
  }

  lemma NotEmpty()
    ensures !IsAddress("")
  {
  }

  lemma PrintableConcat(a: string, b: string)
    requires Printable(a) && Printable(b)
    ensures Printable(a + b)
  {
  }

  lemma {:induction false} PrintableSpaced(words: seq<string>)
    requires forall i :: 0 <= i < |words| ==> Printable(words[i])
    ensures Printable(Spaced(words))
  {
    if words != [] {
      PrintableSpaced(words[1..]);
      PrintableConcat(" " + words[0], Spaced(words[1..]));
    }
  }

  /** Arguments of this form neither start nor end with a space. */
  lemma ArgsShape(prefix: string, path: string, words: seq<string>)
    requires Word(prefix) && Printable(prefix) && Printable(path) && AllWords(words) && Printable(Spaced(words))
    ensures var args := Args(prefix, path, words);
            Printable(args) && args != "" && args[0] != ' ' && args[|args| - 1] != ' '
  {
    var front := prefix + "<" + path + ">";
    var args := Args(prefix, path, words);
    assert args == front + Spaced(words) && args[0] == prefix[0] && prefix[0] in prefix;
    PrintableConcat(prefix, "<");
    PrintableConcat(prefix + "<", path);
    PrintableConcat(prefix + "<" + path, ">");
    PrintableConcat(front, Spaced(words));
    if words == [] {
      assert args[|args| - 1] == '>';
    } else {
      SpacedEnds(words[0], words[1..]);
      var tail := words[0] + Spaced(words[1..]);
      assert args == front + " " + tail && args[|args| - 1] == tail[|tail| - 1];
    }
  }

  /** The verb and the rest of a line are found again. */
  lemma LineSplits(verb: string, args: string)
    requires ' ' !in verb && args != "" && args[0] != ' ' && args[|args| - 1] != ' ' && Printable(verb)
             && Printable(args)
    ensures var line := verb + " " + args;
            && Printable(line) && Find(line, ' ') == Some(|verb|)
            && line[..|verb|] == verb && Trim(line[|verb| + 1..]) == args
  {
    var line := verb + " " + args;
    assert line == verb + [' '] + args;
    FindAt(verb, ' ', args);
    assert line[|verb| + 1..] == args;
  }

  lemma LineParses(verb: string, prefix: string, path: string, words: seq<string>, r: Result<Command, ParseError>)
    requires ' ' !in verb && Printable(verb) && Word(prefix) && Printable(prefix) && Printable(path)
    requires AllWords(words) && Printable(Spaced(words)) && ParseVerb(verb, Args(prefix, path, words)) == r
    ensures ParseCommand(verb + " " + Args(prefix, path, words)) == r
  {
    ArgsShape(prefix, path, words);
    LineSplits(verb, Args(prefix, path, words));
  }

  lemma Verbs(args: string)
    ensures ParseVerb("MAIL", args) == ParseMail(args) && ParseVerb("RCPT", args) == ParseRcpt(args)
  {
    assert Lower("RCPT")[0] == 'r' && Lower("EHLO")[0] == 'e' && Lower("HELO")[0] == 'h' && Lower("MAIL")[0] == 'm';
  }

  lemma PrintableMailWords(size: Option<nat>, body: Option<BodyMode>)
    ensures Printable(Spaced(MailWords(size, body)))
  {
    if size.Some? {
      DigitsDenote(size.value);
    }
    PrintableSpaced(MailWords(size, body));
  }

  lemma MailParts(sender: Option<Address>, size: Option<nat>, body: Option<BodyMode>)
    requires size.Some? ==> size.value <= U64_MAX
    ensures var words := MailWords(size, body);
            && ParsePath(Args("FROM:", PathOf(sender), words), "FROM:") == Ok((PathOf(sender), Trim(Spaced(words))))
            && ReadParameters(Words(Trim(Spaced(words)))) == Ok(Parameters(size, body))
  {
    var words := MailWords(size, body);
    if sender.Some? {
      AddressPath(sender.value);
    }
    MailWordsAreWords(size, body);
    PathRead("FROM:", PathOf(sender), words);
    SpacedWords(words);
    MailWordsRead(size, body);
  }

  lemma SenderRead(sender: Option<Address>)
    ensures sender.None? <==> PathOf(sender) == ""
    ensures sender.Some? ==> Parse(PathOf(sender)) == sender
  {
    NotEmpty();
  }

  lemma MailArgs(sender: Option<Address>, size: Option<nat>, body: Option<BodyMode>)
    requires size.Some? ==> size.value <= U64_MAX
    ensures ParseMail(Args("FROM:", PathOf(sender), MailWords(size, body))) == Ok(Mail(sender, size, body))
  {
    MailParts(sender, size, body);
    SenderRead(sender);
  }

  lemma VerbShapes()
    ensures ' ' !in "MAIL" && Printable("MAIL") && Word("FROM:") && Printable("FROM:")
    ensures ' ' !in "RCPT" && Printable("RCPT") && Word("TO:") && Printable("TO:")
  {
  }

  lemma MailVerb(sender: Option<Address>, size: Option<nat>, body: Option<BodyMode>)
    requires size.Some? ==> size.value <= U64_MAX
    ensures ParseVerb("MAIL", Args("FROM:", PathOf(sender), MailWords(size, body))) == Ok(Mail(sender, size, body))
  {
    MailArgs(sender, size, body);
    Verbs(Args("FROM:", PathOf(sender), MailWords(size, body)));
  }

  /** For every sender, size and body mode the server reads back exactly what the client printed. */
  lemma MailRoundTrip(sender: Option<Address>, size: Option<nat>, body: Option<BodyMode>)
    requires size.Some? ==> size.value <= U64_MAX
    ensures ParseCommand(MailLine(sender, size, body)) == Ok(Mail(sender, size, body))
  {
    if sender.Some? {
      AddressPath(sender.value);
    }
    MailVerb(sender, size, body);
    MailWordsAreWords(size, body);
    PrintableMailWords(size, body);
    VerbShapes();
    LineParses("MAIL", "FROM:", PathOf(sender), MailWords(size, body), Ok(Mail(sender, size, body)));
  }

  lemma RcptArgs(recipient: Address)
    ensures ParseRcpt(Args("TO:", recipient, [])) == Ok(Rcpt(recipient))
  {
    AddressPath(recipient);
    PathRead("TO:", recipient, []);
    assert Trim("") == "";
  }

  lemma RcptVerb(recipient: Address)
    ensures ParseVerb("RCPT", Args("TO:", recipient, [])) == Ok(Rcpt(recipient))
  {
    RcptArgs(recipient);
    Verbs(Args("TO:", recipient, []));
  }

  /** ... and so it does every RCPT line. */
  lemma RcptRoundTrip(recipient: Address)
    ensures ParseCommand(RcptLine(recipient)) == Ok(Rcpt(recipient))
  {
    AddressPath(recipient);
    RcptVerb(recipient);
    VerbShapes();
    LineParses("RCPT", "TO:", recipient, [], Ok(Rcpt(recipient)));
  }

  lemma SpacedOne(a: string)
    ensures |Spaced([a])| == 1 + |a|
  {
    assert [a][1..] == [] && Spaced([]) == "";
  }

  lemma SpacedTwo(a: string, b: string)
    ensures |Spaced([a, b])| == 2 + |a| + |b|
  {
    assert [a, b][1..] == [b];
    SpacedOne(b);
  }

  lemma WordsFit(size: Option<nat>, body: Option<BodyMode>)
    requires size.Some? ==> size.value <= U64_MAX
    ensures |Spaced(MailWords(size, body))| <= 40
  {
    var first := if size.Some? then "SIZE=" + Digits(size.value) else "";
    var second := if body.Some? then "BODY=" + BodyText(body.value) else "";
    if size.Some? {
      U64Digits(size.value);
    }
    SpacedOne(first);
    SpacedOne(second);
    SpacedTwo(first, second);
    assert MailWords(size, body)
           == if size.Some? && body.Some? then [first, second]
              else if size.Some? then [first] else if body.Some? then [second] else [];
  }

  lemma ArgsLength(prefix: string, path: string, words: seq<string>)
    ensures |Args(prefix, path, words)| == |prefix| + |path| + 2 + |Spaced(words)|
  {
  }

  /** Both lines fit the server's limit. */
  lemma LinesFit(sender: Option<Address>, size: Option<nat>, body: Option<BodyMode>, recipient: Address)
    requires size.Some? ==> size.value <= U64_MAX
    ensures |MailLine(sender, size, body)| + 2 <= COMMAND_LINE && |RcptLine(recipient)| + 2 <= COMMAND_LINE
  {
    WordsFit(size, body);
    ArgsLength("FROM:", PathOf(sender), MailWords(size, body));
    ArgsLength("TO:", recipient, []);
    assert |recipient| <= MAX_ADDRESS && |PathOf(sender)| <= MAX_ADDRESS;
  }

  // ---------------------------------------------------------------- the verbs

  lemma VerbTexts()
    ensures Lower("EHLO") == "ehlo" && Lower("HELO") == "helo" && Lower("MAIL") == "mail" && Lower("RCPT") == "rcpt"
    ensures Lower("DATA") == "data" && Lower("RSET") == "rset" && Lower("NOOP") == "noop" && Lower("HELP") == "help"
    ensures Lower("VRFY") == "vrfy" && Lower("QUIT") == "quit" && Lower("STARTTLS") == "starttls"
  {
  }

  /** Every verb, in any case, is read as its own command: the greetings and VRFY need an argument, */
  lemma SpokenVerbs(verb: string, args: string)
    ensures Lower(verb) == "ehlo" ==>
              ParseVerb(verb, args) == if args == "" || ' ' in args then Err(Syntax) else Ok(Ehlo(args))
    ensures Lower(verb) == "helo" ==>
              ParseVerb(verb, args) == if args == "" || ' ' in args then Err(Syntax) else Ok(Helo(args))
    ensures Lower(verb) == "vrfy" ==> ParseVerb(verb, args) == if args == "" then Err(Syntax) else Ok(Verify)
    ensures Lower(verb) == "noop" ==> ParseVerb(verb, args) == Ok(Noop)
    ensures Lower(verb) == "help" ==> ParseVerb(verb, args) == Ok(Help)
  {
    VerbTexts();
  }

  /** ... and the bare ones refuse one. */
  lemma BareVerbs(verb: string, args: string)
    ensures Lower(verb) == "data" ==> ParseVerb(verb, args) == if args == "" then Ok(Data) else Err(Syntax)
    ensures Lower(verb) == "rset" ==> ParseVerb(verb, args) == if args == "" then Ok(Reset) else Err(Syntax)
    ensures Lower(verb) == "quit" ==> ParseVerb(verb, args) == if args == "" then Ok(Quit) else Err(Syntax)
    ensures Lower(verb) == "starttls" ==> ParseVerb(verb, args) == if args == "" then Ok(StartTls) else Err(Syntax)
  {
    VerbTexts();
  }
}
