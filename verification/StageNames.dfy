/** Stage names, and the seven canonical stages they stand for. */
module StageNames {
  import opened Wrappers

  datatype Canonical = Discovery | Proposal | Negotiation | Scoping | Stalling | Won | Lost

  function NameOf(c: Canonical): string {
    match c
    case Discovery => "Discovery"
    case Proposal => "Proposal"
    case Negotiation => "Negotiation"
    case Scoping => "Scoping"
    case Stalling => "Stalling"
    case Won => "Won"
    case Lost => "Lost"
  }

  const ALL: seq<Canonical> := [Discovery, Proposal, Negotiation, Scoping, Stalling, Won, Lost]

  function Named(name: string): Option<Canonical> {
    if name == "Discovery" then Some(Discovery)
    else if name == "Proposal" then Some(Proposal)
    else if name == "Negotiation" then Some(Negotiation)
    else if name == "Scoping" then Some(Scoping)
    else if name == "Stalling" then Some(Stalling)
    else if name == "Won" then Some(Won)
    else if name == "Lost" then Some(Lost)
    else None
  }

  /** `OLD_TO_CANONICAL`, by lower-case name. */
  function OldName(lower: string): Option<Canonical> {
    if lower in {"prospecting", "qualification", "new", "contacted"} then Some(Discovery)
    else if lower in {"needs analysis", "needs_analysis"} then Some(Negotiation)
    else if lower in {"closed won", "closed_won", "converted"} then Some(Won)
    else if lower in {"closed lost", "closed_lost", "disqualified"} then Some(Lost)
    else if lower in {"engaged", "qualified"} then Some(Proposal)
    else if lower == "nurturing" then Some(Stalling)
    else None
  }

  function LowerChar(c: char): char {
    if 'A' <= c <= 'Z' then c - 'A' + 'a' else c
  }

  function Lower(s: string): string {
    seq(|s|, i requires 0 <= i < |s| => LowerChar(s[i]))
  }

  /** The 26 capital letters become small ones, and every other character stays. */
  lemma LowerLetters(s: string, i: nat)
    requires i < |s|
    ensures |Lower(s)| == |s|
    ensures Lower(s)[i] as int == if 65 <= s[i] as int <= 90 then s[i] as int + 32 else s[i] as int
  {
  }

  /** The canonical stage a name is mapped to; a name nobody knows becomes Discovery. */
  function CanonicalOf(name: string): Canonical {
    match OldName(Lower(name))
    case Some(c) => c
    case None =>
      match Named(name)
      case Some(c) => c
      case None => Discovery
  }

  function LowerNameOf(c: Canonical): string {
    match c
    case Discovery => "discovery"
    case Proposal => "proposal"
    case Negotiation => "negotiation"
    case Scoping => "scoping"
    case Stalling => "stalling"
    case Won => "won"
    case Lost => "lost"
  }

  lemma LowerNames(c: Canonical)
    ensures Lower(NameOf(c)) == LowerNameOf(c)
  {
  }

  lemma LowerNamesAreNotOld(c: Canonical)
    ensures OldName(LowerNameOf(c)) == None && Named(NameOf(c)) == Some(c)
  {
  }

  /** A canonical name stands for itself, which a second run depends on. */
  lemma CanonicalNamesStay(c: Canonical)
    ensures CanonicalOf(NameOf(c)) == c
  {
    LowerNames(c);
    LowerNamesAreNotOld(c);
  }

  /** What every name stands for; the rest is Discovery. */
  lemma WhatNamesMean(name: string)
    ensures CanonicalOf(name) == Won <==>
      name == "Won" || Lower(name) in {"closed won", "closed_won", "converted"}
    ensures CanonicalOf(name) == Lost <==>
      name == "Lost" || Lower(name) in {"closed lost", "closed_lost", "disqualified"}
    ensures CanonicalOf(name) == Proposal <==> name == "Proposal" || Lower(name) in {"engaged", "qualified"}
    ensures CanonicalOf(name) == Negotiation <==>
      name == "Negotiation" || Lower(name) in {"needs analysis", "needs_analysis"}
    ensures CanonicalOf(name) == Scoping <==> name == "Scoping"
    ensures CanonicalOf(name) == Stalling <==> name == "Stalling" || Lower(name) == "nurturing"
  {
    if Named(name).Some? {
      LowerNames(Named(name).value);
      LowerNamesAreNotOld(Named(name).value);
      assert NameOf(Named(name).value) == name;
    }
  }

  /** The names the source lists for Discovery stand for it, like any other name nobody knows. */
  lemma WhatDiscoveryMeans(name: string)
    requires Lower(name) in {"prospecting", "qualification", "new", "contacted"} || name == "Discovery"
    ensures CanonicalOf(name) == Discovery
  {
    WhatNamesMean(name);
    LowerNames(Discovery);
    LowerNamesAreNotOld(Discovery);
    if name != "Discovery" {
      forall c ensures Lower(name) != LowerNameOf(c) { LowerNamesAreNotOld(c); }
    }
  }

  /**
   * Case matters for canonical names: a spelling of one stands for it exactly when it is the
   * canonical spelling, or when it stands for Discovery, where every unknown name goes.
   */
  lemma SpellingMatters(name: string, c: Canonical)
    requires Lower(name) == LowerNameOf(c)
    ensures CanonicalOf(name) == c <==> name == NameOf(c) || c == Discovery
  {
    LowerNamesAreNotOld(c);
    if Named(name).Some? {
      var d := Named(name).value;
      LowerNames(d);
      assert name == NameOf(d) && LowerNameOf(d) == LowerNameOf(c);
      LowerNamesDiffer(c, d);
    }
  }

  lemma LowerNamesDiffer(c: Canonical, d: Canonical)
    requires LowerNameOf(c) == LowerNameOf(d)
    ensures c == d
  {
    assert LowerNameOf(c)[0] == LowerNameOf(d)[0] && LowerNameOf(c)[1] == LowerNameOf(d)[1];
  }

  /** A stage called "won" is filed under Discovery, although "CLOSED Won" is Won. */
  lemma LowerCaseWonIsDiscovery()
    ensures CanonicalOf("won") == Discovery && CanonicalOf("Won") == Won && CanonicalOf("CLOSED Won") == Won
  {
    assert Lower("won") == LowerNameOf(Won);
    SpellingMatters("won", Won);
    CanonicalNamesStay(Won);
    assert Lower("CLOSED Won") == "closed won";
  }
}
