/**
 * Sender → company-name resolution: the address inside the first `<…>`, the domain after
 * the first `@`, then an ordered rule chain (generic mail provider, known-company suffix
 * table, subdomain name, first name, "Unknown").
 */
module Extract {
  import opened Wrappers
  import opened Text
  import opened RawMail

  /** A character of the class `[\w.-]`, with `\w` read as ASCII letters, digits and `_`. */
  predicate IsDomainChar(c: char) {
    ('a' <= c <= 'z') || ('A' <= c <= 'Z') || ('0' <= c <= '9') || c == '_' || c == '.' || c == '-'
  }

  /** `<([^>]+)>` matches with its `<` at `i` and its `>` at `j`. */
  predicate BracketAt(s: string, i: int, j: int) {
    && 0 <= i && i + 1 < j < |s|
    && s[i] == '<' && s[j] == '>'
    && forall k :: i < k < j ==> s[k] != '>'
  }

  /** A bracket opened at `i` closes at one place only. */
  lemma BracketCloseUnique(s: string, i: int, j1: int, j2: int)
    requires BracketAt(s, i, j1) && BracketAt(s, i, j2)
    ensures j1 == j2
  {
  }

  /** `re.search(r'<([^>]+)>', s)` from position `from`: the leftmost match, if any. */
  function FindBracket(s: string, from: nat): (r: Option<(nat, nat)>)
    decreases |s| - from
    ensures r.Some? ==> from <= r.value.0 && BracketAt(s, r.value.0, r.value.1)
    ensures forall i, j :: from <= i && BracketAt(s, i, j) ==> r.Some? && r.value.0 <= i
  {
    if from >= |s| then None
    else if s[from] == '<' then
      match FirstIndexFrom(s, '>', from + 1)
      case Some(j) => if j > from + 1 then Some((from, j)) else FindBracket(s, from + 1)
      case None => FindBracket(s, from + 1)
    else FindBracket(s, from + 1)
  }

  /** `match.group(1) if match else sender.strip()`. */
  function AddressOf(sender: string): (r: string)
    ensures (forall i, j :: !BracketAt(sender, i, j)) ==> r == Strip(sender)
    ensures (exists i, j :: BracketAt(sender, i, j)) ==> r != [] && '>' !in r
  {
    match FindBracket(sender, 0)
    case Some((i, j)) => sender[i + 1..j]
    case None => Strip(sender)
  }

  /** With a `<…>` pair the address is the text inside the first one (non-empty, no `>`);
      without one it is the whole sender, stripped. */
  lemma AddressInFirstBracket(sender: string, i: nat, j: nat)
    requires BracketAt(sender, i, j)
    requires forall i', j' :: BracketAt(sender, i', j') ==> i <= i'
    ensures AddressOf(sender) == sender[i + 1..j]
    ensures AddressOf(sender) != [] && '>' !in AddressOf(sender)
  {
    var r := FindBracket(sender, 0);
    BracketCloseUnique(sender, i, j, r.value.1);
  }

  lemma AddressWithoutBracket(sender: string)
    requires forall i, j :: !BracketAt(sender, i, j)
    ensures AddressOf(sender) == Strip(sender)
  {
  }

  /** `@([\w.-]+)` can start matching at `i`. */
  predicate DomainStart(s: string, i: int) {
    0 <= i && i + 1 < |s| && s[i] == '@' && IsDomainChar(s[i + 1])
  }

  /** The leftmost position at or after `from` where `@([\w.-]+)` matches. */
  function FindDomainStart(s: string, from: nat): (r: Option<nat>)
    decreases |s| - from
    ensures r.Some? ==> from <= r.value && DomainStart(s, r.value)
    ensures forall i :: from <= i && DomainStart(s, i) ==> r.Some? && r.value <= i
  {
    if from >= |s| then None
    else if DomainStart(s, from) then Some(from)
    else FindDomainStart(s, from + 1)
  }

  /** End of the greedy run `[\w.-]+` starting at `k`. */
  function RunEnd(s: string, k: nat): (e: nat)
    requires k <= |s|
    decreases |s| - k
    ensures k <= e <= |s|
    ensures forall m :: k <= m < e ==> IsDomainChar(s[m])
    ensures e == |s| || !IsDomainChar(s[e])
  {
    if k < |s| && IsDomainChar(s[k]) then RunEnd(s, k + 1) else k
  }

  /** `domain_match.group(1).lower() if domain_match else ""`: only lower-case domain
      characters, and empty exactly when no `@` is followed by one. */
  function DomainOf(address: string): (d: string)
    ensures d == [] <==> forall i :: !DomainStart(address, i)
    ensures forall k :: 0 <= k < |d| ==> IsDomainChar(d[k]) && !('A' <= d[k] <= 'Z')
  {
    match FindDomainStart(address, 0)
    case None => []
    case Some(i) => Lower(address[i + 1..RunEnd(address, i + 1)])
  }

  /** The domain is the maximal run of domain characters after the leftmost `@` that is
      followed by one, lower-cased. */
  lemma DomainIsMaximalRun(address: string, i: nat, e: nat)
    requires DomainStart(address, i)
    requires forall i' :: 0 <= i' < i ==> !DomainStart(address, i')
    requires i + 1 < e <= |address|
    requires forall m :: i + 1 <= m < e ==> IsDomainChar(address[m])
    requires e == |address| || !IsDomainChar(address[e])
    ensures DomainOf(address) == Lower(address[i + 1..e])
  {
    var r := FindDomainStart(address, 0);
    assert r.value == i;
    var e' := RunEnd(address, i + 1);
    assert e' == e;
  }

  /** The consumer mail providers that resolve to "Generic". */
  const GenericDomains: set<string> := {"gmail.com", "yahoo.com", "outlook.com", "hotmail.com", "protonmail.com"}

  /** The known-company table, in its declaration order, which is the order of lookup. */
  const KnownCompanyDomains: seq<(string, string)> := [
    ("google.com", "Google"),
    ("microsoft.com", "Microsoft"),
    ("apple.com", "Apple"),
    ("amazon.com", "Amazon"),
    ("facebook.com", "Facebook"),
    ("meta.com", "Meta"),
    ("twitter.com", "Twitter"),
    ("linkedin.com", "LinkedIn"),
    ("youtube.com", "Youtube"),
    ("instagram.com", "Instagram")
  ]

  /** The first table entry at or after `from` whose key ends the domain. */
  function KnownIndex(domain: string, from: nat): (r: Option<nat>)
    decreases |KnownCompanyDomains| - from
    ensures r.Some? ==> from <= r.value < |KnownCompanyDomains| && EndsWith(domain, KnownCompanyDomains[r.value].0)
    ensures r.Some? ==> forall k :: from <= k < r.value ==> !EndsWith(domain, KnownCompanyDomains[k].0)
    ensures r.None? ==> forall k :: from <= k < |KnownCompanyDomains| ==> !EndsWith(domain, KnownCompanyDomains[k].0)
  {
    if from >= |KnownCompanyDomains| then None
    else if EndsWith(domain, KnownCompanyDomains[from].0) then Some(from)
    else KnownIndex(domain, from + 1)
  }

  /** The four kinds of answer the rule chain can give for `domain`: "Unknown", "Generic",
      a canonical name from the table, or one of the domain's dot-separated names, capitalised. */
  predicate IsRuleOutcome(domain: string, r: string) {
    || r == "Unknown"
    || r == "Generic"
    || (exists k :: 0 <= k < |KnownCompanyDomains| && r == KnownCompanyDomains[k].1)
    || (exists p :: p in Split(domain, '.') && r == Capitalize(p))
  }

  /** The rule chain applied to a lower-cased domain. */
  function CompanyFromDomain(domain: string): (r: string)
    ensures domain == [] ==> r == "Unknown"
    ensures domain in GenericDomains ==> r == "Generic"
    ensures IsRuleOutcome(domain, r)
  {
    if domain == [] then "Unknown"
    else if domain in GenericDomains then "Generic"
    else match KnownIndex(domain, 0)
      case Some(k) => KnownCompanyDomains[k].1
      case None =>
        var parts := Split(domain, '.');
        if |parts| >= 3 then Capitalize(parts[|parts| - 2]) else Capitalize(parts[0])
  }

  /** `extract_domain_as_company_name(sender)`. */
  function CompanyName(sender: string): (r: string)
    ensures DomainOf(AddressOf(sender)) == [] ==> r == "Unknown"
    ensures DomainOf(AddressOf(sender)) in GenericDomains ==> r == "Generic"
    ensures IsRuleOutcome(DomainOf(AddressOf(sender)), r)
  {
    CompanyFromDomain(DomainOf(AddressOf(sender)))
  }

  /** No domain: "Unknown". */
  lemma NoDomainIsUnknown(sender: string)
    requires forall i :: !DomainStart(AddressOf(sender), i)
    ensures CompanyName(sender) == "Unknown"
  {
  }

  /** An exactly generic domain gives "Generic". */
  lemma GenericRule(domain: string)
    requires domain in GenericDomains
    ensures CompanyFromDomain(domain) == "Generic"
  {
  }

  /** A non-generic domain ending with a table key gives the canonical name of the first such key. */
  lemma KnownSuffixRule(domain: string, k: nat)
    requires domain != [] && domain !in GenericDomains
    requires k < |KnownCompanyDomains| && EndsWith(domain, KnownCompanyDomains[k].0)
    requires forall m :: 0 <= m < k ==> !EndsWith(domain, KnownCompanyDomains[m].0)
    ensures CompanyFromDomain(domain) == KnownCompanyDomains[k].1
  {
    var r := KnownIndex(domain, 0);
    assert r.value == k;
  }

  /** A domain of three or more labels with no generic or known match is named after its
      second-to-last name, capitalised. */
  lemma {:induction false} SubdomainRule(prefix: string, name: string, last: string)
    requires '.' !in name && '.' !in last
    requires var domain := prefix + "." + name + "." + last;
      domain !in GenericDomains && KnownIndex(domain, 0).None?
    ensures CompanyFromDomain(prefix + "." + name + "." + last) == Capitalize(name)
  {
    var domain := prefix + "." + name + "." + last;
    assert domain == prefix + ['.'] + (name + ['.'] + last);
    SplitAround(prefix, '.', name + ['.'] + last);
    SplitAround(name, '.', last);
    SplitWithoutSep(name, '.');
    SplitWithoutSep(last, '.');
    var parts := Split(domain, '.');
    assert parts == Split(prefix, '.') + [name, last];
  }

  /** A domain of one or two labels with no generic or known match is named after its
      first name, capitalised. */
  lemma FirstLabelRule(name: string, rest: string)
    requires '.' !in name && '.' !in rest
    requires var domain := name + "." + rest;
      domain !in GenericDomains && KnownIndex(domain, 0).None?
    ensures CompanyFromDomain(name + "." + rest) == Capitalize(name)
  {
    SplitAround(name, '.', rest);
    SplitWithoutSep(name, '.');
    SplitWithoutSep(rest, '.');
  }

  lemma SingleLabelRule(name: string)
    requires name != [] && '.' !in name && name !in GenericDomains && KnownIndex(name, 0).None?
    ensures CompanyFromDomain(name) == Capitalize(name)
  {
    SplitWithoutSep(name, '.');
  }

  /** A sender written `Name <address>`, with no `<` in the name and no `>` in a non-empty
      address, yields that address. */
  lemma {:induction false} BracketedAddress(name: string, address: string)
    requires '<' !in name && '>' !in address && address != []
    ensures AddressOf(name + " <" + address + ">") == address
  {
    var sender := name + " <" + address + ">";
    var i, j := |name| + 1, |sender| - 1;
    assert sender[i] == '<' && sender[j] == '>';
    forall k | i < k < j ensures sender[k] != '>' {
      assert sender[k] == address[k - i - 1];
    }
    assert forall k :: 0 <= k < |name| ==> sender[k] == name[k];
    AddressInFirstBracket(sender, i, j);
    assert sender[i + 1..j] == address;
  }

  /** An address `local@domain`, with no `@` in the local part and a domain made of domain
      characters, yields the domain lower-cased. */
  lemma {:induction false} AtDomain(local: string, domain: string)
    requires '@' !in local
    requires domain != [] && forall k :: 0 <= k < |domain| ==> IsDomainChar(domain[k])
    ensures DomainOf(local + "@" + domain) == Lower(domain)
  {
    var address := local + "@" + domain;
    var at := |local|;
    assert address[at] == '@' && address[at + 1] == domain[0];
    forall i' | 0 <= i' < at ensures !DomainStart(address, i') {
      assert address[i'] == local[i'];
    }
    forall m | at + 1 <= m < |address| ensures IsDomainChar(address[m]) {
      assert address[m] == domain[m - at - 1];
    }
    DomainIsMaximalRun(address, at, |address|);
    assert address[at + 1..] == domain;
  }

  /** The two together: the domain of `Name <local@domain>` is `domain`, lower-cased. */
  lemma DisplayNameRule(name: string, local: string, domain: string)
    requires '<' !in name && '>' !in local && '@' !in local
    requires domain != [] && forall k :: 0 <= k < |domain| ==> IsDomainChar(domain[k])
    ensures DomainOf(AddressOf(name + " <" + (local + "@" + domain) + ">")) == Lower(domain)
  {
    AddressLacksClose(local, domain);
    BracketedAddress(name, local + "@" + domain);
    AtDomain(local, domain);
  }

  /** A domain made of domain characters holds no `>`, so neither does the address. */
  lemma AddressLacksClose(local: string, domain: string)
    requires '>' !in local
    requires forall k :: 0 <= k < |domain| ==> IsDomainChar(domain[k])
    ensures '>' !in local + "@" + domain
  {
    var address := local + "@" + domain;
    forall k | 0 <= k < |address| ensures address[k] != '>' {
      if k < |local| {
        assert address[k] == local[k];
      } else if k > |local| {
        assert address[k] == domain[k - |local| - 1];
        assert IsDomainChar(domain[k - |local| - 1]);
      }
    }
  }

  /** Lower-casing a domain without capitals leaves it alone. */
  lemma LowerWithoutCapitals(s: string)
    requires forall k :: 0 <= k < |s| ==> !('A' <= s[k] <= 'Z')
    ensures Lower(s) == s
  {
  }

  /** Every key of the table ends in `?.com` with `?` one of "etnkarm". */
  lemma KeyShape(k: nat)
    requires k < |KnownCompanyDomains|
    ensures var key := KnownCompanyDomains[k].0;
      |key| >= 5 && key[|key| - 1] == 'm' && key[|key| - 5] in "etnkarm"
  {
    var key := KnownCompanyDomains[k].0;
    if k == 0 { assert key == "google.com"; }
    else if k == 1 { assert key == "microsoft.com"; }
    else if k == 2 { assert key == "apple.com"; }
    else if k == 3 { assert key == "amazon.com"; }
    else if k == 4 { assert key == "facebook.com"; }
    else if k == 5 { assert key == "meta.com"; }
    else if k == 6 { assert key == "twitter.com"; }
    else if k == 7 { assert key == "linkedin.com"; }
    else if k == 8 { assert key == "youtube.com"; }
    else { assert key == "instagram.com"; }
  }

  predicate OffTail(domain: string) {
    |domain| < 5 || domain[|domain| - 1] != 'm' || domain[|domain| - 5] !in "etnkarm"
  }

  lemma KeyMismatch(domain: string, k: nat)
    requires OffTail(domain) && k < |KnownCompanyDomains|
    ensures !EndsWith(domain, KnownCompanyDomains[k].0)
  {
    KeyShape(k);
  }

  /** So a domain without that tail matches no key. */
  lemma UnknownTail(domain: string)
    requires OffTail(domain)
    ensures KnownIndex(domain, 0).None?
  {
    var r := KnownIndex(domain, 0);
    if r.Some? {
      KeyMismatch(domain, r.value);
    }
  }

  /** The generic providers end in `?.com` with `?` one of "lok": a domain that does not is
      not generic. */
  lemma NotGeneric(domain: string)
    requires |domain| >= 5 && domain[|domain| - 5] !in "lok"
    ensures domain !in GenericDomains
  {
  }

  /** Nor is a domain with a dot before its last label: the generic providers have one dot. */
  lemma TwoDotsNotGeneric(domain: string, p: nat)
    requires p < |domain| - 4 && domain[p] == '.'
    ensures domain !in GenericDomains
  {
  }

  /** The second example of the doc comment, for any display name, local part and
      lower-case subdomain: a subdomain of a known company resolves through the table. */
  lemma GoogleExample(name: string, local: string, sub: string)
    requires '<' !in name && '>' !in local && '@' !in local
    requires forall k :: 0 <= k < |sub| ==> IsDomainChar(sub[k]) && !('A' <= sub[k] <= 'Z')
    ensures CompanyName(name + " <" + (local + "@" + (sub + "." + "google.com")) + ">") == "Google"
  {
    var domain := sub + "." + "google.com";
    var tail := "." + "google.com";
    assert forall k :: 0 <= k < |tail| ==> IsDomainChar(tail[k]) && !('A' <= tail[k] <= 'Z');
    assert forall k :: 0 <= k < |domain| ==> domain[k] == if k < |sub| then sub[k] else tail[k - |sub|];
    DisplayNameRule(name, local, domain);
    LowerWithoutCapitals(domain);
    GoogleSuffix(sub + ".");
  }

  /** The table is matched by suffix, not by label: a look-alike domain takes the company's name. */
  lemma GoogleSuffix(prefix: string)
    ensures CompanyFromDomain(prefix + "google.com") == "Google"
  {
    var domain := prefix + "google.com";
    assert domain[|domain| - 10..] == "google.com";
    assert domain[|domain| - 5] == 'e';
    NotGeneric(domain);
    KnownSuffixRule(domain, 0);
  }

  /** A generic provider only matches exactly: its subdomains fall through to the label rules. */
  lemma GenericSubdomain(sub: string)
    requires '.' !in sub
    ensures CompanyFromDomain(sub + "." + "gmail" + "." + "com") == "Gmail"
  {
    var domain := sub + "." + "gmail" + "." + "com";
    assert domain[|sub|] == '.';
    TwoDotsNotGeneric(domain, |sub|);
    assert |domain| >= 5 && domain[|domain| - 5] == 'l';
    UnknownTail(domain);
    SubdomainRule(sub, "gmail", "com");
  }

  /** An address whose domain is only a dot leaves an empty name. */
  lemma DotOnlyDomain()
    ensures CompanyFromDomain(".") == []
  {
    UnknownTail(".");
    FirstLabelRule("", "");
  }

  /** `extract_company_names(emails)`: one name per message, in order, the sender defaulting to "". */
  function ExtractCompanyNames(emails: seq<RawEmail>): (names: seq<string>)
    ensures |names| == |emails|
    ensures forall i :: 0 <= i < |emails| ==> names[i] == CompanyName(Sender(emails[i]))
  {
    if emails == [] then [] else [CompanyName(Sender(emails[0]))] + ExtractCompanyNames(emails[1..])
  }
}
