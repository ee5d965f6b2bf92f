/** ASCII dot-atom mailboxes (crates/core/src/lib.rs). */
module Addresses {
  import opened Wrappers

  const MAX_ADDRESS := 254
  const MAX_LOCAL := 64
  const MAX_DOMAIN := 253
  const MAX_LABEL := 63

  predicate Alphanumeric(c: char) {
    'a' <= c <= 'z' || 'A' <= c <= 'Z' || '0' <= c <= '9'
  }

  predicate LocalChar(c: char) {
    Alphanumeric(c) || c in "!#$%&'*+-/=?^_`{|}~."
  }

  function LowerChar(c: char): char {
    if 'A' <= c <= 'Z' then (c as int + 32) as char else c
  }

  function Lower(s: string): (r: string)
    ensures |r| == |s|
    ensures forall i :: 0 <= i < |s| ==> r[i] == LowerChar(s[i])
  {
    seq(|s|, i requires 0 <= i < |s| => LowerChar(s[i]))
  }

  /** The pieces of `s` between occurrences of `c`. */
  function Split(s: string, c: char): (r: seq<string>)
    ensures |r| > 0
  {
    if s == "" then [""]
    else
      var rest := Split(s[1..], c);
      if s[0] == c then [""] + rest else [[s[0]] + rest[0]] + rest[1..]
  }

  predicate ValidLabel(part: string) {
    && 0 < |part| <= MAX_LABEL
    && Alphanumeric(part[0])
    && Alphanumeric(part[|part| - 1])
    && forall i :: 0 <= i < |part| ==> Alphanumeric(part[i]) || part[i] == '-'
  }

  predicate ValidDomain(domain: string) {
    && 0 < |domain| <= MAX_DOMAIN
    && var labels := Split(domain, '.');
       forall i :: 0 <= i < |labels| ==> ValidLabel(labels[i])
  }

  /** Position of the last occurrence of `c`, as `rsplit_once` finds it. */
  function LastIndex(s: string, c: char): (r: Option<nat>)
    ensures r.Some? ==> r.value < |s| && s[r.value] == c
    ensures r.Some? ==> forall k :: r.value < k < |s| ==> s[k] != c
    ensures r.None? ==> forall k :: 0 <= k < |s| ==> s[k] != c
  {
    if s == "" then None
    else if s[|s| - 1] == c then Some(|s| - 1)
    else LastIndex(s[..|s| - 1], c)
  }

  predicate ValidLocal(local: string) {
    && 0 < |local| <= MAX_LOCAL
    && local[0] != '.'
    && local[|local| - 1] != '.'
    && (forall i :: 0 <= i < |local| - 1 ==> !(local[i] == '.' && local[i + 1] == '.'))
    && forall i :: 0 <= i < |local| ==> LocalChar(local[i])
  }

  /** `Address::parse`: the canonical text, or nothing. Only the domain is folded. */
  function Parse(input: string): (r: Option<string>) {
    var at := LastIndex(input, '@');
    if at.None? then None
    else
      var local, domain := input[..at.value], input[at.value + 1..];
      if |input| > MAX_ADDRESS || !ValidLocal(local) || !ValidDomain(domain) then None
      else Some(local + "@" + Lower(domain))
  }

  /** Only `Parse` constructs addresses, so every one of them is its own canonical text. */
  predicate IsAddress(text: string) { Parse(text) == Some(text) }

  lemma ShortestIsAddress()
    ensures IsAddress("a@b")
  {
    assert "a@b"[..2] == "a@";
    assert LastIndex("a@b", '@') == Some(1);
    assert "a@b"[..1] == "a" && "a@b"[2..] == "b";
    assert "b"[1..] == "" && Split("", '.') == [""];
    assert ['b'] + "" == "b";
    assert Split("b", '.') == [['b'] + ""] + [""][1..] == ["b"];
    assert Lower("b") == "b";
    assert "a" + "@" + "b" == "a@b";
  }

  type Address = text: string | IsAddress(text) witness (ShortestIsAddress(); "a@b")

  function DomainOf(text: string): string {
    var at := LastIndex(text, '@');
    if at.None? then "" else text[at.value + 1..]
  }

  /** `Address::local_key`: the server's own case-insensitive name space. */
  function LocalKey(text: string): string { Lower(text) }

  // ---- Folding the domain changes neither its shape nor its validity ----

  lemma LowerFront(c: char, s: string)
    ensures Lower([c] + s) == [LowerChar(c)] + Lower(s)
  {
  }

  lemma {:induction false} LowerSplit(s: string)
    ensures |Split(Lower(s), '.')| == |Split(s, '.')|
    ensures forall i :: 0 <= i < |Split(s, '.')| ==> Split(Lower(s), '.')[i] == Lower(Split(s, '.')[i])
  {
    if s == "" {
      assert Lower(s) == "";
    } else {
      LowerSplit(s[1..]);
      assert Lower(s)[1..] == Lower(s[1..]);
      LowerFront(s[0], Split(s[1..], '.')[0]);
    }
  }

  lemma LowerKeepsLabel(part: string)
    requires ValidLabel(part)
    ensures ValidLabel(Lower(part))
  {
    forall i | 0 <= i < |part| ensures Alphanumeric(Lower(part)[i]) || Lower(part)[i] == '-' {
      assert Alphanumeric(part[i]) || part[i] == '-';
    }
  }

  lemma LowerKeepsDomain(domain: string)
    requires ValidDomain(domain)
    ensures ValidDomain(Lower(domain))
  {
    LowerSplit(domain);
    var labels := Split(domain, '.');
    forall i | 0 <= i < |labels| ensures ValidLabel(Split(Lower(domain), '.')[i]) {
      LowerKeepsLabel(labels[i]);
    }
  }

  lemma {:induction false} SplitCoversCharacters(s: string, c: char, x: char)
    requires x in s && x != c
    ensures exists i, j :: 0 <= i < |Split(s, c)| && 0 <= j < |Split(s, c)[i]| && Split(s, c)[i][j] == x
  {
    var rest := Split(s[1..], c);
    var all := Split(s, c);
    if x == s[0] {
      assert all[0][0] == x;
    } else {
      SplitCoversCharacters(s[1..], c, x);
      var i, j :| 0 <= i < |rest| && 0 <= j < |rest[i]| && rest[i][j] == x;
      if s[0] == c {
        assert all[i + 1][j] == x;
      } else if i == 0 {
        assert all[0][j + 1] == x;
      } else {
        assert all[i][j] == x;
      }
    }
  }

  predicate AddressChar(c: char) { LocalChar(c) || c == '@' }

  lemma DomainCharacters(domain: string, x: char)
    requires ValidDomain(domain) && x in domain
    ensures Alphanumeric(x) || x == '-' || x == '.'
  {
    if x != '.' {
      SplitCoversCharacters(domain, '.', x);
      var labels := Split(domain, '.');
      var i, j :| 0 <= i < |labels| && 0 <= j < |labels[i]| && labels[i][j] == x;
      assert ValidLabel(labels[i]);
    }
  }

  /** Two texts joined by the only `@` after the first are taken apart at that `@`. */
  lemma JoinedParses(local: string, domain: string)
    requires ValidLocal(local) && ValidDomain(domain) && Lower(domain) == domain
    requires |local| + 1 + |domain| <= MAX_ADDRESS
    ensures IsAddress(local + "@" + domain)
  {
    var text := local + "@" + domain;
    assert text[|local|] == '@';
    forall k | |local| < k < |text| ensures text[k] != '@' {
      assert text[k] == domain[k - |local| - 1];
      DomainCharacters(domain, text[k]);
    }
    assert LastIndex(text, '@') == Some(|local|);
    assert text[..|local|] == local && text[|local| + 1..] == domain;
  }

  /** What `Parse` returns parses to itself: a stored address is always readable again. */
  lemma ParsedIsCanonical(input: string)
    requires Parse(input).Some?
    ensures IsAddress(Parse(input).value)
    ensures |Parse(input).value| <= MAX_ADDRESS
  {
    var at := LastIndex(input, '@').value;
    var local, domain := input[..at], input[at + 1..];
    LowerKeepsDomain(domain);
    assert Lower(Lower(domain)) == Lower(domain);
    JoinedParses(local, Lower(domain));
  }

  /** An address carries no space, control character or angle bracket into a command line. */
  lemma AddressCharacters(text: Address, i: nat)
    requires i < |text|
    ensures AddressChar(text[i])
  {
    var at := LastIndex(text, '@').value;
    if i > at {
      assert text[at + 1..][i - at - 1] == text[i];
      DomainCharacters(text[at + 1..], text[i]);
    } else if i < at {
      assert text[..at][i] == text[i];
    }
  }
}
