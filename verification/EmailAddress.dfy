/** Addresses: what two spellings are one address, and which addresses are let through.

    Letter case is folded for ASCII letters only. */
module EmailAddress {
  /** What `trim` removes and `\s` matches. */
  predicate IsSpace(c: char) {
    var u := c as int;
    9 <= u <= 13 || u == 32 || u == 0xA0 || u == 0x1680 || 0x2000 <= u <= 0x200A || u == 0x2028 || u == 0x2029
    || u == 0x202F || u == 0x205F || u == 0x3000 || u == 0xFEFF
  }

  function LowerChar(c: char): char { if 'A' <= c <= 'Z' then ((c as int) + 32) as char else c }

  function Lower(s: string): (t: string)
    ensures |t| == |s| && forall i | 0 <= i < |s| :: t[i] == LowerChar(s[i])
  {
    seq(|s|, i requires 0 <= i < |s| => LowerChar(s[i]))
  }

  function TrimStart(s: string): (t: string)
    ensures t != [] ==> !IsSpace(t[0])
    ensures s != [] && !IsSpace(s[0]) ==> t == s
  {
    if s != [] && IsSpace(s[0]) then TrimStart(s[1..]) else s
  }

  function TrimEnd(s: string): (t: string)
    ensures t <= s && (t != [] ==> !IsSpace(t[|t| - 1]))
    ensures s != [] && !IsSpace(s[|s| - 1]) ==> t == s
  {
    if s != [] && IsSpace(s[|s| - 1]) then TrimEnd(s[..|s| - 1]) else s
  }

  function Trim(s: string): string { TrimEnd(TrimStart(s)) }

  predicate Trimmed(s: string) { s != [] ==> !IsSpace(s[0]) && !IsSpace(s[|s| - 1]) }

  /** The index of the last `@`, or -1. */
  function LastAt(s: string): (at: int)
    ensures -1 <= at < |s|
    ensures at >= 0 ==> s[at] == '@'
    ensures forall i | at < i < |s| :: s[i] != '@'
  {
    if s == [] then -1 else if s[|s| - 1] == '@' then |s| - 1 else LastAt(s[..|s| - 1])
  }

  lemma LastAtIs(s: string, at: int)
    requires -1 <= at < |s| && (at >= 0 ==> s[at] == '@') && forall i | at < i < |s| :: s[i] != '@'
    ensures LastAt(s) == at
  {
  }

  /** There is something on both sides of the last `@`. */
  predicate Splits(s: string) { 0 < LastAt(s) < |s| - 1 }

  /** The local part as it is, the rest in lower case. */
  function Folded(t: string): string
    requires Splits(t)
  {
    t[..LastAt(t)] + Lower(t[LastAt(t)..])
  }

  function Normalise(value: string): string {
    var t := Trim(value);
    if Splits(t) then Folded(t) else t
  }

  function DomainOf(email: string): string {
    var at := LastAt(email);
    if at < 0 then "" else email[at + 1..]
  }

  lemma FoldKeepsAt(t: string)
    requires Splits(t)
    ensures |Folded(t)| == |t| && LastAt(Folded(t)) == LastAt(t)
  {
    LastAtIs(Folded(t), LastAt(t));
  }

  lemma FoldLowersDomain(t: string)
    requires Splits(t)
    ensures DomainOf(Folded(t)) == Lower(DomainOf(t))
  {
    FoldKeepsAt(t);
  }

  lemma FoldKeepsShape(t: string)
    requires Splits(t)
    ensures var at, f := LastAt(t), Folded(t);
      && |f| == |t| && LastAt(f) == at && f[..at] == t[..at] && f[at..] == Lower(t[at..])
      && (Trimmed(t) ==> Trimmed(f)) && DomainOf(f) == Lower(DomainOf(t))
  {
    FoldKeepsAt(t);
    FoldLowersDomain(t);
  }

  lemma LowerTwice(s: string)
    ensures Lower(Lower(s)) == Lower(s)
  {
  }

  /** Normalising is settled after one go, so stored and compared forms agree. */
  lemma NormaliseTwice(value: string)
    ensures Normalise(Normalise(value)) == Normalise(value)
  {
    var t := Trim(value);
    if Splits(t) {
      FoldKeepsShape(t);
      LowerTwice(t[LastAt(t)..]);
    }
  }

  /** Two addresses become one exactly when, trimmed, they are the same, or both have a local part and
      a domain, the local parts are the same letter for letter and the domains differ in case at most:
      folding never merges two mailboxes of one host. */
  lemma MergesExactly(a: string, b: string)
    ensures var s, t := Trim(a), Trim(b);
      Normalise(a) == Normalise(b)
      <==> s == t || (Splits(s) && Splits(t)
                      && s[..LastAt(s)] == t[..LastAt(t)] && Lower(DomainOf(s)) == Lower(DomainOf(t)))
  {
    var s, t := Trim(a), Trim(b);
    if Splits(s) && Splits(t) {
      FoldsMergeExactly(s, t);
    } else if Splits(s) {
      FoldKeepsAt(s);
    } else if Splits(t) {
      FoldKeepsAt(t);
    }
  }

  lemma FoldsMergeExactly(s: string, t: string)
    requires Splits(s) && Splits(t)
    ensures Folded(s) == Folded(t)
        <==> s[..LastAt(s)] == t[..LastAt(t)] && Lower(DomainOf(s)) == Lower(DomainOf(t))
  {
    if Folded(s) == Folded(t) { SameFold(s, t); }
    Whole(s);
    Whole(t);
  }

  lemma SameFold(s: string, t: string)
    requires Splits(s) && Splits(t) && Folded(s) == Folded(t)
    ensures s[..LastAt(s)] == t[..LastAt(t)] && Lower(DomainOf(s)) == Lower(DomainOf(t))
  {
    FoldKeepsAt(s);
    FoldKeepsAt(t);
    FoldLowersDomain(s);
    FoldLowersDomain(t);
  }

  lemma Whole(s: string)
    requires Splits(s)
    ensures Folded(s) == s[..LastAt(s)] + ("@" + Lower(DomainOf(s)))
  {
    var at := LastAt(s);
    assert s[at..] == "@" + DomainOf(s);
  }

  // ---- what normalising does, spelled out ----

  predicate AllSpace(s: string) { forall i | 0 <= i < |s| :: IsSpace(s[i]) }

  lemma {:induction false} TrimStartDrops(pad: string, s: string)
    requires AllSpace(pad) && (s != [] ==> !IsSpace(s[0]))
    ensures TrimStart(pad + s) == s
  {
    if pad == [] {
      assert pad + s == s;
    } else {
      TrimStartDrops(pad[1..], s);
      assert (pad + s)[1..] == pad[1..] + s;
    }
  }

  lemma {:induction false} TrimEndDrops(s: string, pad: string)
    requires AllSpace(pad) && (s != [] ==> !IsSpace(s[|s| - 1]))
    ensures TrimEnd(s + pad) == s
  {
    if pad == [] {
      assert s + pad == s;
    } else {
      TrimEndDrops(s, pad[..|pad| - 1]);
      assert (s + pad)[..|s + pad| - 1] == s + pad[..|pad| - 1];
    }
  }

  /** Whatever space surrounds it goes, and nothing else. */
  lemma TrimDropsSpace(before: string, s: string, after: string)
    requires AllSpace(before) && AllSpace(after) && s != [] && Trimmed(s)
    ensures Trim(before + s + after) == s
  {
    assert before + s + after == before + (s + after);
    TrimStartDrops(before, s + after);
    TrimEndDrops(s, after);
  }

  lemma SidesOf(name: string, domain: string)
    requires name != [] && domain != [] && '@' !in domain
    ensures var s := name + "@" + domain;
      LastAt(s) == |name| && s[..|name|] == name && s[|name| + 1..] == domain && Splits(s) && DomainOf(s) == domain
      && s[0] == name[0] && s[|s| - 1] == domain[|domain| - 1]
  {
    var s := name + "@" + domain;
    assert s[|name| + 1..] == domain;
    forall i | |name| < i < |s| ensures s[i] != '@' { assert s[i] == domain[i - |name| - 1]; }
    LastAtIs(s, |name|);
  }

  /** An address, with whatever space around it, becomes its local part as it is and its domain in lower
      case; the last `@` parts the two. */
  lemma NormalisesTo(before: string, name: string, domain: string, after: string)
    requires AllSpace(before) && AllSpace(after) && name != [] && domain != [] && '@' !in domain
    requires !IsSpace(name[0]) && !IsSpace(domain[|domain| - 1])
    ensures Normalise(before + (name + "@" + domain) + after) == name + ("@" + Lower(domain))
  {
    var s := name + "@" + domain;
    SidesOf(name, domain);
    TrimDropsSpace(before, s, after);
    Whole(s);
  }

  lemma NotTwoSides(s: string)
    requires '@' !in s || s[|s| - 1] == '@' || (s[0] == '@' && '@' !in s[1..])
    ensures !Splits(s)
  {
    if '@' in s {
      if s[|s| - 1] != '@' {
        forall i | 0 < i < |s| ensures s[i] != '@' { assert s[i] == s[1..][i - 1]; }
      }
    }
  }

  /** What is no address with two sides is only trimmed. */
  lemma OthersAreTrimmed(before: string, s: string, after: string)
    requires AllSpace(before) && AllSpace(after) && s != [] && Trimmed(s)
    requires '@' !in s || s[|s| - 1] == '@' || (s[0] == '@' && '@' !in s[1..])
    ensures Normalise(before + s + after) == s
  {
    TrimDropsSpace(before, s, after);
    NotTwoSides(s);
  }

  // ---- what the services and the table accept ----

  predicate HasSpace(s: string) { exists i | 0 <= i < |s| :: IsSpace(s[i]) }

  predicate Graphic(s: string) { s != [] && forall i | 0 <= i < |s| :: 0x21 <= s[i] as int <= 0x7e }

  predicate HasEmptyLabel(domain: string) {
    exists i | 0 <= i < |domain| - 1 :: domain[i] == '.' && domain[i + 1] == '.'
  }

  predicate IsDeliverable(value: string) {
    && 0 < |value| <= 254 && Graphic(value) && Splits(value)
    && var domain := value[LastAt(value) + 1..];
      && '.' in domain && domain[0] != '.' && domain[|domain| - 1] != '.' && !HasEmptyLabel(domain)
      && '@' !in domain
  }

  // ---- deliverable addresses ----

  /** Two labels or more, joined by dots, none of them empty or with a dot of its own. */
  predicate Labelled(domain: string, labels: seq<string>) {
    |labels| >= 2 && domain == Dotted(labels) && forall i | 0 <= i < |labels| :: labels[i] != [] && '.' !in labels[i]
  }

  function Dotted(labels: seq<string>): string
    requires labels != []
  {
    if |labels| == 1 then labels[0] else labels[0] + ("." + Dotted(labels[1..]))
  }

  /** No label is empty. */
  predicate NoEmptyLabel(domain: string) {
    domain != [] && domain[0] != '.' && domain[|domain| - 1] != '.' && !HasEmptyLabel(domain)
  }

  lemma PutInFront(first: string, rest: string)
    requires first != [] && '.' !in first
    ensures var d := first + ("." + rest);
      && '.' in d && d != [] && d[0] != '.'
      && (NoEmptyLabel(rest) ==> NoEmptyLabel(d))
  {
    var d := first + ("." + rest);
    assert d[|first|] == '.';
    if NoEmptyLabel(rest) {
      forall i | 0 <= i < |d| - 1 ensures !(d[i] == '.' && d[i + 1] == '.') {
        if i > |first| { assert d[i] == rest[i - |first| - 1] && d[i + 1] == rest[i - |first|]; }
      }
      assert d[|d| - 1] == rest[|rest| - 1];
    }
  }

  lemma {:induction false} JoinedHasNone(labels: seq<string>)
    requires labels != [] && forall i | 0 <= i < |labels| :: labels[i] != [] && '.' !in labels[i]
    ensures NoEmptyLabel(Dotted(labels)) && ('.' in Dotted(labels) <==> |labels| >= 2)
  {
    if |labels| > 1 {
      JoinedHasNone(labels[1..]);
      PutInFront(labels[0], Dotted(labels[1..]));
    }
  }

  lemma FirstDot(domain: string) returns (k: nat)
    requires '.' in domain
    ensures k < |domain| && domain[k] == '.' && '.' !in domain[..k]
  {
    k := 0;
    while domain[k] != '.'
      invariant k < |domain| && '.' !in domain[..k] && '.' in domain[k..]
      decreases |domain| - k
    {
      assert domain[..k + 1] == domain[..k] + [domain[k]] && domain[k..] == [domain[k]] + domain[k + 1..];
      k := k + 1;
    }
  }

  lemma {:induction false} CutAtDots(domain: string) returns (labels: seq<string>)
    requires NoEmptyLabel(domain)
    ensures labels != [] && domain == Dotted(labels)
    ensures forall i | 0 <= i < |labels| :: labels[i] != [] && '.' !in labels[i]
    ensures '.' in domain <==> |labels| >= 2
    decreases |domain|
  {
    if '.' !in domain {
      labels := [domain];
    } else {
      var k := FirstDot(domain);
      var rest := domain[k + 1..];
      assert domain == domain[..k] + ("." + rest);
      RestHasNone(domain, k);
      var later := CutAtDots(rest);
      labels := [domain[..k]] + later;
      assert labels[1..] == later;
    }
  }

  lemma RestHasNone(domain: string, k: nat)
    requires NoEmptyLabel(domain) && k < |domain| && domain[k] == '.'
    ensures NoEmptyLabel(domain[k + 1..]) && k > 0
  {
    var rest := domain[k + 1..];
    assert domain[|domain| - 1] != '.';
    assert k + 1 < |domain| && !(domain[k] == '.' && domain[k + 1] == '.');
    forall i | 0 <= i < |rest| - 1 ensures !(rest[i] == '.' && rest[i + 1] == '.') {
      assert domain[k + 1 + i] == rest[i] && domain[k + 2 + i] == rest[i + 1];
    }
  }

  ghost predicate HasLabels(domain: string) { exists labels :: Labelled(domain, labels) }

  lemma LabelledExactly(domain: string)
    ensures HasLabels(domain) <==> NoEmptyLabel(domain) && '.' in domain
  {
    if labels :| Labelled(domain, labels) { JoinedHasNone(labels); }
    if NoEmptyLabel(domain) && '.' in domain {
      var labels := CutAtDots(domain);
      assert Labelled(domain, labels);
    }
  }

  ghost predicate NameAtDomain(value: string, name: string, domain: string) {
    value == name + "@" + domain && name != [] && '@' !in domain && HasLabels(domain)
  }

  lemma DeliverableHasSides(value: string)
    requires IsDeliverable(value)
    ensures exists name, domain :: NameAtDomain(value, name, domain)
  {
    var at := LastAt(value);
    var name, domain := value[..at], value[at + 1..];
    assert value == name + "@" + domain;
    LabelledExactly(domain);
    assert NameAtDomain(value, name, domain);
  }

  lemma SidesAreDeliverable(value: string, name: string, domain: string)
    requires NameAtDomain(value, name, domain) && |value| <= 254 && Graphic(value)
    ensures IsDeliverable(value)
  {
    LabelledExactly(domain);
    SidesOf(name, domain);
  }

  /** A code is sent exactly to what has at most 254 visible characters of ASCII, and is a name, an `@` and
      a domain of two labels or more. */
  lemma DeliverableExactly(value: string)
    ensures IsDeliverable(value)
        <==> |value| <= 254 && (forall i | 0 <= i < |value| :: '!' <= value[i] <= '~')
             && exists name, domain :: NameAtDomain(value, name, domain)
  {
    if IsDeliverable(value) { DeliverableHasSides(value); }
    if |value| <= 254 && (forall i | 0 <= i < |value| :: '!' <= value[i] <= '~') {
      if name, domain :| NameAtDomain(value, name, domain) { SidesAreDeliverable(value, name, domain); }
    }
  }

  /** What `isUsable` asks of the address of an assertion. */
  predicate IsUsableAddress(email: string) {
    email == Normalise(email) && email != [] && !HasSpace(email)
  }

  /** The table's check as the memory store evaluates it. */
  predicate DomainIsFolded(email: string) { DomainOf(email) == Lower(DomainOf(email)) }

  /** `regexp_replace(email, '^.*@', '')`: everything up to the last `@` goes, and an address
      without one stays whole. */
  function AfterGreedyAt(email: string): string { email[LastAt(email) + 1..] }

  /** The same check as the rendered DDL states it. */
  predicate DomainIsFoldedInSql(email: string) { AfterGreedyAt(email) == Lower(AfterGreedyAt(email)) }

  /** An address the services use is one the table takes, except where there is nothing before the
      only `@`: that one is left unfolded, and then refused as if somebody else held it. */
  lemma UsableMeetsTheCheckExactly(email: string)
    requires IsUsableAddress(email)
    ensures DomainIsFolded(email) <==> !(LastAt(email) == 0 && email != Lower(email))
  {
    if LastAt(email) == 0 {
    } else if Splits(email) {
      CanonicalIsFolded(email);
    } else {
      assert DomainOf(email) == "";
    }
  }

  lemma CanonicalIsFolded(email: string)
    requires Splits(email) && Normalise(email) == email
    ensures DomainIsFolded(email)
  {
    FoldKeepsShape(email);
  }

  /** The two statements of the check agree exactly on addresses that have an `@` or no capital. */
  lemma TwinsAgreeExactly(email: string)
    ensures (DomainIsFolded(email) <==> DomainIsFoldedInSql(email))
            <==> LastAt(email) >= 0 || email == Lower(email)
  {
    if LastAt(email) < 0 {
      assert AfterGreedyAt(email) == email;
    }
  }

  /** The rendered check refuses whatever the restatement refuses. */
  lemma SqlRefusesMore(email: string)
    requires DomainIsFoldedInSql(email)
    ensures DomainIsFolded(email)
  {
    if LastAt(email) < 0 { assert DomainOf(email) == ""; }
  }

  lemma WordsDisagree(w: string)
    requires w != [] && LastAt(w) < 0 && !HasSpace(w) && w != Lower(w)
    ensures IsUsableAddress(w) && DomainIsFolded(w) && !DomainIsFoldedInSql(w)
  {
    assert !IsSpace(w[0]) && !IsSpace(w[|w| - 1]);
    KeptWithoutAt(w);
    TwinsAgreeExactly(w);
  }

  lemma RootIsAWord()
    ensures LastAt("Root") < 0 && !HasSpace("Root") && "Root" != Lower("Root")
  {
    var w := "Root";
    assert w[0] == 'R' && w[1] == 'o' && w[2] == 'o' && w[3] == 't';
    LastAtIs(w, -1);
    assert Lower(w)[0] == LowerChar(w[0]) == 'r';
  }

  /** A capitalised word without `@` is usable, is stored by the memory store and would be refused
      by the rendered DDL. */
  lemma TwinsDisagree()
    ensures IsUsableAddress("Root") && DomainIsFolded("Root") && !DomainIsFoldedInSql("Root")
  {
    RootIsAWord();
    WordsDisagree("Root");
  }

  /** Only `@` and a domain in capitals: usable, and not what the table's check asks for. */
  lemma BareDomain()
    ensures var a := "@EXAMPLE.COM";
      IsUsableAddress(a) && LastAt(a) == 0 && a != Lower(a) && !DomainIsFolded(a)
  {
    var a := "@EXAMPLE.COM";
    LastAtIs(a, 0);
    assert Lower(a)[1] == 'e';
    BareIsUsable(a);
    UsableMeetsTheCheckExactly(a);
  }

  lemma BareIsUsable(a: string)
    requires a != [] && LastAt(a) == 0 && !HasSpace(a)
    ensures IsUsableAddress(a)
  {
    assert !IsSpace(a[0]) && !IsSpace(a[|a| - 1]);
  }

  lemma KeptWithoutAt(w: string)
    requires LastAt(w) < 0 && Trimmed(w)
    ensures Normalise(w) == w && DomainIsFolded(w)
  {
    assert DomainOf(w) == "";
  }

  /** Every address a code is sent to can be stored under both statements of the check. */
  lemma DeliverableIsStorable(value: string)
    requires IsDeliverable(Normalise(value))
    ensures var e := Normalise(value); IsUsableAddress(e) && DomainIsFolded(e) && DomainIsFoldedInSql(e)
  {
    var e := Normalise(value);
    NormaliseTwice(value);
    GraphicHasNoSpace(e);
    UsableMeetsTheCheckExactly(e);
    TwinsAgreeExactly(e);
  }

  lemma GraphicHasNoSpace(e: string)
    requires Graphic(e)
    ensures !HasSpace(e)
  {
  }
}
