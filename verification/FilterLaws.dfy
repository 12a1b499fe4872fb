// What a filter decision says about the rule it reports, modifier by modifier, and what
// a rule on its own decides.

module FilterLaws {
  import opened Wrappers
  import opened Globs
  import opened FilterEngine

  /** The domain, or a name with the domain behind a dot. */
  ghost predicate Below(name: string, domain: string) {
    name == domain || exists p: string :: name == p + "." + domain
  }

  /** The client, by its address, one of its names, or a network it is in. */
  ghost predicate Names(spec: set<string>, client: string, names: set<string>, inNet: (string, string) -> bool) {
    || (exists n :: n in names && n in spec)
    || (client != "" && exists entry :: entry in spec && (entry == client || ('/' in entry && inNet(client, entry))))
  }

  ghost predicate PatternMatches(r: Rule, name: string, search: (string, bool, string) -> bool) {
    match r.form
    case Suffix(d) => Below(name, d)
    case Exact(d) => name == d
    case Regex(text, glob) => search(text, glob, name)
    case NoForm => false
  }

  lemma {:induction false} BelowIsUnder(name: string, domain: string)
    ensures Below(name, domain) <==> Under(name, domain)
  {
    var end := "." + domain;
    if EndsWith(name, end) {
      var p := name[..|name| - |end|];
      assert p + "." + domain == p + end == name;
    }
    if p: string :| name == p + "." + domain {
      assert p + "." + domain == p + end;
    }
  }

  lemma {:induction false} NamesIsClientIn(spec: set<string>, client: string, names: set<string>, inNet: (string, string) -> bool)
    ensures Names(spec, client, names, inNet) <==> ClientIn(spec, client, names, inNet)
  {
    if n :| n in names && n in spec {
      assert n in names * spec;
    }
    if names * spec != {} {
      var n :| n in names * spec;
      assert n in names && n in spec;
    }
  }

  /** What each modifier asks of the query. */
  ghost predicate Lets(r: Rule, q: Query, inNet: (string, string) -> bool) {
    && (r.dnstypes.Some? ==> q.qtype in r.dnstypes.value)
    && (r.dnstypesNot.Some? ==> q.qtype !in r.dnstypesNot.value)
    && (r.ctags.Some? ==> exists t :: t in q.ctags && t in r.ctags.value)
    && (r.ctagsNot.Some? ==> forall t :: t in q.ctags ==> t !in r.ctagsNot.value)
    && (r.clients.Some? ==> Names(r.clients.value, q.client, q.names, inNet))
    && (r.clientsNot.Some? ==> !Names(r.clientsNot.value, q.client, q.names, inNet))
    && (forall d :: d in r.denyallow ==> !Below(q.name, d))
  }

  lemma {:induction false} LetsIsApplies(r: Rule, q: Query, inNet: (string, string) -> bool)
    ensures Lets(r, q, inNet) <==> Applies(r, q, inNet)
  {
    hide Below, Under, Names, ClientIn;
    forall d
      ensures Below(q.name, d) <==> Under(q.name, d)
    {
      BelowIsUnder(q.name, d);
    }
    if r.clients.Some? {
      NamesIsClientIn(r.clients.value, q.client, q.names, inNet);
    }
    if r.clientsNot.Some? {
      NamesIsClientIn(r.clientsNot.value, q.client, q.names, inNet);
    }
    if r.ctags.Some? {
      Overlap(q.ctags, r.ctags.value);
    }
    if r.ctagsNot.Some? {
      Overlap(q.ctags, r.ctagsNot.value);
    }
  }

  lemma {:induction false} Overlap(a: set<string>, b: set<string>)
    ensures a * b != {} <==> exists t :: t in a && t in b
  {
    if a * b != {} {
      var t :| t in a * b;
      assert t in a && t in b;
    }
    if t :| t in a && t in b {
      assert t in a * b;
    }
  }

  lemma {:induction false} PatternIsForm(r: Rule, name: string, search: (string, bool, string) -> bool)
    ensures PatternMatches(r, name, search) <==> FormMatches(r.form, name, search)
  {
    if r.form.Suffix? {
      BelowIsUnder(name, r.form.domain);
    }
  }

  /** No rule of this polarity that matches and applies is important when `r` is not, or
    * has a longer domain when both are, or neither is. */
  ghost predicate Foremost(rules: seq<Rule>, q: Query, r: Rule, search: (string, bool, string) -> bool, inNet: (string, string) -> bool) {
    forall x :: x in rules && x.block == r.block && !x.badfilter && (x.form.Suffix? ==> 0 < |x.form.domain| <= 255)
                && PatternMatches(x, q.name, search) && Lets(x, q, inNet) && Survives(rules, x) ==>
      && (x.important ==> r.important)
      && (x.important == r.important && (x.form.Suffix? || x.form.Exact?) ==>
            |x.form.domain| == 0 || ((r.form.Suffix? || r.form.Exact?) && |x.form.domain| <= |r.form.domain|))
  }

  /** No `$badfilter` rule of its pattern and polarity is there, or it rewrites. */
  ghost predicate Survives(rules: seq<Rule>, r: Rule) {
    !r.badfilter && (r.rewrite.Some? || forall b :: b in rules && b.badfilter && b.block == r.block ==> !SamePattern(b.form, r.form))
  }

  lemma {:induction false} SurvivesIsLive(rules: seq<Rule>, r: Rule)
    requires r in rules
    ensures Survives(rules, r) <==> r in LiveRules(rules, BadKeys(rules))
  {
    BadfilterRemoves(rules, r);
  }

  /** Compile, match, and name the rule that is reported: it is a rule of the list that no
    * `$badfilter` took away, its pattern matches, every modifier of it lets the query
    * through, the decision is of its kind, and it is the foremost such rule. */
  method Report(rules: seq<Rule>, qname: string, qtype: nat, ctags: set<string>, client: string, names: set<string>,
                search: (string, bool, string) -> bool, inNet: (string, string) -> bool) returns (d: Decision, ghost r: Rule)
    ensures d.action != Pass ==>
            var name := Normal(qname);
            && r in rules && d.source == r.source && Survives(rules, r)
            && (d.action == Allowed <==> !r.block) && (d.action == Rewritten <==> r.block && r.rewrite.Some?)
            && (d.action == Rewritten ==> d.rewrite == r.rewrite)
            && PatternMatches(r, name, search)
            && (r.dnstypes.Some? ==> qtype in r.dnstypes.value)
            && (r.dnstypesNot.Some? ==> qtype !in r.dnstypesNot.value)
            && (r.ctags.Some? ==> exists t :: t in ctags && t in r.ctags.value)
            && (r.ctagsNot.Some? ==> forall t :: t in ctags ==> t !in r.ctagsNot.value)
            && (r.clients.Some? ==> Names(r.clients.value, client, names, inNet))
            && (r.clientsNot.Some? ==> !Names(r.clientsNot.value, client, names, inNet))
            && (forall x :: x in r.denyallow ==> !Below(name, x))
            && Foremost(rules, Query(name, qtype, ctags, client, names), r, search, inNet)
  {
    hide *;
    ghost var live, q := LiveRules(rules, BadKeys(rules)), Query(Normal(qname), qtype, ctags, client, names);
    var engine := new Engine.Compile(rules, None);
    d := engine.Match(qname, qtype, ctags, client, names, search, inNet, live);
    if d.action != Pass {
      r :| Reports(d, Held(live), q, r, search, inNet);
      ReportIsRight(rules, d, q, r, search, inNet);
      LetsParts(r, q, inNet);
    } else {
      r := PlainRule("", "", "");
    }
  }

  lemma {:induction false} LetsParts(r: Rule, q: Query, inNet: (string, string) -> bool)
    requires Lets(r, q, inNet)
    ensures r.dnstypes.Some? ==> q.qtype in r.dnstypes.value
    ensures r.dnstypesNot.Some? ==> q.qtype !in r.dnstypesNot.value
    ensures r.ctags.Some? ==> exists t :: t in q.ctags && t in r.ctags.value
    ensures r.ctagsNot.Some? ==> forall t :: t in q.ctags ==> t !in r.ctagsNot.value
    ensures r.clients.Some? ==> Names(r.clients.value, q.client, q.names, inNet)
    ensures r.clientsNot.Some? ==> !Names(r.clientsNot.value, q.client, q.names, inNet)
    ensures forall d :: d in r.denyallow ==> !Below(q.name, d)
  {
  }

  lemma {:induction false} ReportIsRight(rules: seq<Rule>, d: Decision, q: Query, r: Rule,
                                         search: (string, bool, string) -> bool, inNet: (string, string) -> bool)
    requires d.action != Pass && Reports(d, Held(LiveRules(rules, BadKeys(rules))), q, r, search, inNet)
    ensures r in rules && d.source == r.source && Survives(rules, r)
    ensures (d.action == Allowed <==> !r.block) && (d.action == Rewritten <==> r.block && r.rewrite.Some?)
    ensures d.action == Rewritten ==> d.rewrite == r.rewrite
    ensures PatternMatches(r, q.name, search) && Lets(r, q, inNet) && Foremost(rules, q, r, search, inNet)
  {
    hide Lets, Applies, Under, Below, FormMatches, PatternMatches, Survives, IsPlain, FromOperator;
    var live := LiveRules(rules, BadKeys(rules));
    LetsIsApplies(r, q, inNet);
    PatternIsForm(r, q.name, search);
    SurvivesIsLive(rules, r);
    forall x | x in rules && x.block == r.block && (x.form.Suffix? ==> 0 < |x.form.domain| <= 255)
               && PatternMatches(x, q.name, search) && Lets(x, q, inNet) && Survives(rules, x)
      ensures (x.important ==> r.important)
      ensures x.important == r.important && (x.form.Suffix? || x.form.Exact?) ==>
                |x.form.domain| == 0 || ((r.form.Suffix? || r.form.Exact?) && |x.form.domain| <= |r.form.domain|)
    {
      LetsIsApplies(x, q, inNet);
      PatternIsForm(x, q.name, search);
      SurvivesIsLive(rules, x);
      ShortIsHeld(live, x);
      assert Hit(Held(live), q, r.block, x, search, inNet);
      assert !Better(x, r);
    }
  }

  lemma {:induction false} ShortIsHeld(live: seq<Rule>, r: Rule)
    requires r in live && (r.form.Suffix? ==> 0 < |r.form.domain| <= 255)
    ensures r in Held(live)
  {
  }

  /** A rule on its own decides every query that its pattern matches and each of its
    * modifiers lets through, and no other. */
  method OneRuleDecides(r: Rule, qname: string, qtype: nat, ctags: set<string>, client: string, names: set<string>,
                        search: (string, bool, string) -> bool, inNet: (string, string) -> bool) returns (d: Decision)
    requires !r.badfilter && (r.form.Suffix? ==> 0 < |r.form.domain| <= 255)
    ensures var q := Query(Normal(qname), qtype, ctags, client, names);
            d.action ==
            if q.name != "" && PatternMatches(r, q.name, search) && Lets(r, q, inNet) then
              (if !r.block then Allowed else if r.rewrite.Some? then Rewritten else Blocked)
            else Pass
    ensures d.action != Pass ==> d.source == r.source && d.rule == Shown(r)
  {
    hide *;
    ghost var live, q := LiveRules([r], BadKeys([r])), Query(Normal(qname), qtype, ctags, client, names);
    OnlyIsLive(r);
    OnlyIsScanned(r, q, search, inNet);
    var engine := new Engine.Compile([r], None);
    d := engine.Match(qname, qtype, ctags, client, names, search, inNet, live);
    if d.action != Pass {
      ghost var x :| Reports(d, Held(live), q, x, search, inNet);
      OnlyIsReported(r, d, q, x, search, inNet);
    }
    KindIs(d);
  }

  lemma {:induction false} KindIs(d: Decision)
    ensures (KindOf(d) == NoMatch <==> d.action == Pass) && (KindOf(d) == Allow <==> d.action == Allowed)
    ensures KindOf(d) == BlockOrRewrite <==> d.action == Blocked || d.action == Rewritten
  {
  }

  lemma {:induction false} OnlyIsLive(r: Rule)
    requires !r.badfilter && (r.form.Suffix? ==> 0 < |r.form.domain| <= 255)
    ensures Held(LiveRules([r], BadKeys([r]))) == [r]
  {
    assert [r][..0] == [] && LiveRules([], BadKeys([r])) == [];
    assert LiveRules([r], BadKeys([r])) == [r];
    assert [r][1..] == [];
  }

  lemma {:induction false} OnlyIsScanned(r: Rule, q: Query, search: (string, bool, string) -> bool, inNet: (string, string) -> bool)
    ensures Scan([r], q, search, inNet) ==
            if q.name != "" && PatternMatches(r, q.name, search) && Lets(r, q, inNet) then (if r.block then BlockOrRewrite else Allow)
            else NoMatch
  {
    hide Applies, Lets, PatternMatches, FormMatches;
    LetsIsApplies(r, q, inNet);
    PatternIsForm(r, q.name, search);
    assert Hit([r], q, r.block, r, search, inNet) <==> FormMatches(r.form, q.name, search) && Applies(r, q, inNet);
  }

  lemma {:induction false} OnlyIsReported(r: Rule, d: Decision, q: Query, x: Rule, search: (string, bool, string) -> bool, inNet: (string, string) -> bool)
    requires d.action != Pass && Reports(d, [r], q, x, search, inNet)
    ensures x == r && d.source == r.source && d.rule == Shown(r)
    ensures d.action == Rewritten <==> d.action != Allowed && r.rewrite.Some?
  {
    hide Applies, FormMatches;
  }

  /** A name is matched whatever its letter case and however many dots end it. */
  lemma {:induction false} NameIsFolded(text: string, dots: nat)
    requires text == "" || text[|text| - 1] != '.'
    ensures var n := Normal(text + seq(dots, _ => '.'));
            && |n| == |text|
            && forall i :: 0 <= i < |text| ==>
                 n[i] == if 'A' <= text[i] <= 'Z' then (text[i] as int + 32) as char else text[i]
    decreases dots
  {
    var s := text + seq(dots, _ => '.');
    if dots == 0 {
      assert s == text;
    } else {
      assert s[..|s| - 1] == text + seq(dots - 1, _ => '.');
      NameIsFolded(text, dots - 1);
    }
  }
}
