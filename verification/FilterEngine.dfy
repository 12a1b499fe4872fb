// The compiled filter index and its matcher (filter/engine.py), against a scan
// of all rules.

module FilterEngine {
  import opened Wrappers
  import opened Globs

  /** What a rule matches. `glob` tells a wildcard rule from a regular expression. */
  datatype Form = Suffix(domain: string) | Exact(domain: string) | Regex(text: string, glob: bool) | NoForm

  datatype Rewrite = Rewrite(rcode: Option<nat>, rdata: Option<string>)

  datatype Rule = Rule(
    raw: string, block: bool, form: Form, important: bool, badfilter: bool,
    dnstypes: Option<set<nat>>, dnstypesNot: Option<set<nat>>,
    ctags: Option<set<string>>, ctagsNot: Option<set<string>>,
    clients: Option<set<string>>, clientsNot: Option<set<string>>,
    denyallow: seq<string>, rewrite: Option<Rewrite>, source: string)

  function PlainRule(raw: string, domain: string, source: string): Rule {
    Rule(raw, true, Suffix(domain), false, false, None, None, None, None, None, None, [], None, source)
  }

  /** A bare block rule for a domain, without modifiers. */
  predicate IsPlain(r: Rule) {
    && r.block && r.form.Suffix? && !r.important && !r.badfilter
    && r.dnstypes.None? && r.ctags.None? && r.clients.None?
    && r.dnstypesNot.None? && r.ctagsNot.None? && r.clientsNot.None?
    && r.denyallow == [] && r.rewrite.None?
  }

  lemma {:induction false} PlainIsAllThereIs(r: Rule)
    ensures IsPlain(r) <==> r.form.Suffix? && r == PlainRule(r.raw, r.form.domain, r.source)
  {
  }

  predicate FromOperator(r: Rule) {
    r.source in {"custom", "denylist", "allowlist"}
  }

  /** What the compiled block table can hold: 1 to 255 octets. */
  predicate Fits(domain: string) {
    0 < |domain| <= 255
  }

  // ---- $badfilter ----

  type PatternId = (Form, bool)

  /** `_pattern_id`: it does not tell a wildcard rule from an expression of the same text. */
  function IdOf(r: Rule): PatternId {
    (if r.form.Regex? then Regex(r.form.text, false) else r.form, r.block)
  }

  function BadKeys(rules: seq<Rule>): (keys: set<PatternId>)
    ensures forall id :: id in keys <==> exists r :: r in rules && r.badfilter && id == IdOf(r)
  {
    set r | r in rules && r.badfilter :: IdOf(r)
  }

  predicate IsLive(r: Rule, keys: set<PatternId>) {
    !r.badfilter && !(IdOf(r) in keys && r.rewrite.None?)
  }

  // ---- The meaning of a rule ----

  datatype Query = Query(name: string, qtype: nat, ctags: set<string>, client: string, names: set<string>)

  /** The domain itself or a name below it. */
  predicate Under(name: string, domain: string) {
    name == domain || EndsWith(name, "." + domain)
  }

  predicate EndsWith(s: string, end: string) {
    |end| <= |s| && s[|s| - |end|..] == end
  }

  /** The pattern matches; `search` is the regular expression engine. */
  predicate FormMatches(form: Form, name: string, search: (string, bool, string) -> bool) {
    match form
    case Suffix(d) => Under(name, d)
    case Exact(d) => name == d
    case Regex(text, glob) => search(text, glob, name)
    case NoForm => false
  }

  /** `_client_in`; `inNet` is membership of an address in a network. */
  predicate ClientIn(spec: set<string>, client: string, names: set<string>, inNet: (string, string) -> bool) {
    || (client != "" && client in spec) || names * spec != {}
    || (client != "" && exists entry :: entry in spec && '/' in entry && inNet(client, entry))
  }

  /** The modifiers of the rule let it apply to the query. */
  predicate Applies(r: Rule, q: Query, inNet: (string, string) -> bool) {
    && (r.dnstypes.Some? ==> q.qtype in r.dnstypes.value)
    && (r.dnstypesNot.Some? ==> q.qtype !in r.dnstypesNot.value)
    && (r.ctags.Some? ==> q.ctags * r.ctags.value != {})
    && (r.ctagsNot.Some? ==> q.ctags * r.ctagsNot.value == {})
    && (r.clientsNot.Some? ==> !ClientIn(r.clientsNot.value, q.client, q.names, inNet))
    && (r.clients.Some? ==> ClientIn(r.clients.value, q.client, q.names, inNet))
    && !(exists d :: d in r.denyallow && Under(q.name, d))
  }

  datatype Kind = NoMatch | Allow | BlockOrRewrite

  ghost predicate Hit(rules: seq<Rule>, q: Query, block: bool, r: Rule,
                      search: (string, bool, string) -> bool, inNet: (string, string) -> bool)
  {
    r in rules && r.block == block && FormMatches(r.form, q.name, search) && Applies(r, q, inNet)
  }

  ghost predicate AnyHit(rules: seq<Rule>, q: Query, block: bool,
                         search: (string, bool, string) -> bool, inNet: (string, string) -> bool)
  {
    exists r :: Hit(rules, q, block, r, search, inNet)
  }

  ghost predicate AnyImportantHit(rules: seq<Rule>, q: Query, block: bool,
                                  search: (string, bool, string) -> bool, inNet: (string, string) -> bool)
  {
    exists r :: Hit(rules, q, block, r, search, inNet) && r.important
  }

  /** Every rule evaluated directly: an exception wins, unless a block rule is
    * important and no exception is. */
  ghost function Scan(rules: seq<Rule>, q: Query,
                      search: (string, bool, string) -> bool, inNet: (string, string) -> bool): Kind
  {
    if q.name == "" then NoMatch
    else if AnyHit(rules, q, false, search, inNet) &&
            (AnyImportantHit(rules, q, false, search, inNet) || !AnyImportantHit(rules, q, true, search, inNet)) then Allow
    else if AnyHit(rules, q, true, search, inNet) then BlockOrRewrite
    else NoMatch
  }

  /** How specific a rule is: important first, then the longer domain. */
  function Length(r: Rule): nat {
    match r.form
    case Suffix(d) => |d|
    case Exact(d) => |d|
    case _ => 0
  }

  predicate Better(x: Rule, y: Rule) {
    (x.important && !y.important) || (x.important == y.important && Length(x) > Length(y))
  }

  datatype Action = Pass | Allowed | Blocked | Rewritten

  datatype Decision = Decision(action: Action, rewrite: Option<Rewrite>, rule: string, source: string)

  function KindOf(d: Decision): Kind {
    match d.action
    case Pass => NoMatch
    case Allowed => Allow
    case _ => BlockOrRewrite
  }

  /** The text a decision shows for a rule: a plain one is known by its domain only. */
  function Shown(r: Rule): string {
    if IsPlain(r) then r.form.domain else r.raw
  }

  /** The decision reports `r`, a matching rule than which none of its polarity is better. */
  ghost predicate Reports(d: Decision, rules: seq<Rule>, q: Query, r: Rule,
                          search: (string, bool, string) -> bool, inNet: (string, string) -> bool)
  {
    && Hit(rules, q, d.action != Allowed, r, search, inNet) && d.source == r.source && d.rule == Shown(r)
    && (d.action == Rewritten <==> d.action != Allowed && r.rewrite.Some?)
    && (d.action == Rewritten ==> d.rewrite == r.rewrite)
    && forall x :: Hit(rules, q, d.action != Allowed, x, search, inNet) ==> !Better(x, r)
  }

  // ---- Names ----

  /** `rstrip(".")`. */
  function StripDots(s: string): string {
    if s != "" && s[|s| - 1] == '.' then StripDots(s[..|s| - 1]) else s
  }

  function Normal(qname: string): string {
    Lower(StripDots(qname))
  }

  /** Every parent suffix of a name, longest first. */
  function Suffixes(name: string): (cands: seq<string>)
    ensures name != "" ==> cands != [] && cands[0] == name
  {
    if name == "" then [] else [name] + After(name, 0)
  }

  /** What follows each dot from index `i` on. */
  function After(name: string, i: nat): seq<string>
    requires i <= |name|
    decreases |name| - i
  {
    if i == |name| then []
    else (if name[i] == '.' then [name[i + 1..]] else []) + After(name, i + 1)
  }

  method ComputeSuffixes(name: string) returns (cands: seq<string>)
    ensures cands == Suffixes(name)
  {
    if name == "" {
      return [];
    }
    cands := [name];
    var i := 0;
    while i < |name|
      invariant i <= |name| && Suffixes(name) == cands + After(name, i)
    {
      if name[i] == '.' {
        cands := cands + [name[i + 1..]];
      }
      i := i + 1;
    }
  }

  lemma {:induction false} AfterIsUnder(name: string, i: nat, c: string)
    requires i <= |name|
    ensures c in After(name, i) <==> i + |c| < |name| && EndsWith(name, "." + c)
    decreases |name| - i
  {
    if i < |name| {
      AfterIsUnder(name, i + 1, c);
      var rest := After(name, i + 1);
      assert c in After(name, i) <==> (name[i] == '.' && c == name[i + 1..]) || c in rest;
      if i + 1 + |c| == |name| {
        assert name[i..] == [name[i]] + name[i + 1..];
        assert EndsWith(name, "." + c) <==> name[i] == '.' && c == name[i + 1..];
      }
    }
  }

  /** The candidates are the names that `name` lies under. */
  lemma {:induction false} SuffixesAreParents(name: string, c: string)
    requires name != ""
    ensures c in Suffixes(name) <==> Under(name, c)
  {
    AfterIsUnder(name, 0, c);
  }

  // ---- The index ----

  type Bucket = map<string, seq<Rule>>

  datatype Index = Index(
    plain: map<string, string>, table: map<string, string>,
    blockSuffix: Bucket, allowSuffix: Bucket, blockExact: Bucket, allowExact: Bucket,
    blockRegex: seq<Rule>, allowRegex: seq<Rule>)

  function Filed(b: Bucket, key: string): seq<Rule> {
    if key in b then b[key] else []
  }

  /** `d.setdefault(key, []).append(r)`. */
  function File(b: Bucket, key: string, r: Rule): Bucket {
    b[key := Filed(b, key) + [r]]
  }

  function AddRule(ix: Index, r: Rule): Index {
    match r.form
    case Regex(_, _) =>
      if r.block then ix.(blockRegex := ix.blockRegex + [r]) else ix.(allowRegex := ix.allowRegex + [r])
    case Exact(d) =>
      if r.block then ix.(blockExact := File(ix.blockExact, d, r)) else ix.(allowExact := File(ix.allowExact, d, r))
    case Suffix(d) =>
      if IsPlain(r) then
        (if FromOperator(r) && d !in ix.plain then ix.(plain := ix.plain[d := r.source]) else ix)
      else if r.block then ix.(blockSuffix := File(ix.blockSuffix, d, r))
      else ix.(allowSuffix := File(ix.allowSuffix, d, r))
    case NoForm => ix
  }

  function Imports(r: Rule): seq<(string, string)> {
    if IsPlain(r) && !FromOperator(r) then [(r.form.domain, r.source)] else []
  }

  /** The table: the first source of each domain it can hold. */
  function Build(imported: seq<(string, string)>): (t: map<string, string>)
    ensures forall d :: d in t <==> Fits(d) && exists s :: (d, s) in imported
    ensures forall d :: d in t ==> (d, t[d]) in imported
  {
    if imported == [] then map[]
    else
      var n := |imported| - 1;
      var (d, s) := imported[n];
      var t := Build(imported[..n]);
      assert imported == imported[..n] + [(d, s)];
      if Fits(d) && d !in t then t[d := s] else t
  }

  class Engine {
    var plain: map<string, string>
    var table: map<string, string>
    var blockSuffix: Bucket
    var allowSuffix: Bucket
    var blockExact: Bucket
    var allowExact: Bucket
    var blockRegex: seq<Rule>
    var allowRegex: seq<Rule>

    function Contents(): Index
      reads this
    {
      Index(plain, table, blockSuffix, allowSuffix, blockExact, allowExact, blockRegex, allowRegex)
    }

    constructor ()
      ensures Contents() == Index(map[], map[], map[], map[], map[], map[], [], [])
    {
      plain, table := map[], map[];
      blockSuffix, allowSuffix, blockExact, allowExact := map[], map[], map[], map[];
      blockRegex, allowRegex := [], [];
    }

    /** `_add`. */
    method Add(r: Rule, imported: seq<(string, string)>) returns (imported': seq<(string, string)>)
      modifies this
      ensures Contents() == AddRule(old(Contents()), r) && imported' == imported + Imports(r)
    {
      imported' := imported;
      match r.form {
        case Regex(_, _) =>
          if r.block {
            blockRegex := blockRegex + [r];
          } else {
            allowRegex := allowRegex + [r];
          }
        case Exact(d) =>
          if r.block {
            blockExact := File(blockExact, d, r);
          } else {
            allowExact := File(allowExact, d, r);
          }
        case Suffix(d) =>
          if IsPlain(r) {
            if FromOperator(r) {
              if d !in plain {
                plain := plain[d := r.source];
              }
            } else {
              imported' := imported' + [(d, r.source)];
            }
          } else if r.block {
            blockSuffix := File(blockSuffix, d, r);
          } else {
            allowSuffix := File(allowSuffix, d, r);
          }
        case NoForm =>
      }
    }

    /** `compile`. */
    constructor Compile(rules: seq<Rule>, given: Option<set<PatternId>>)
      ensures Indexes(Contents(), LiveRules(rules, if given.Some? then given.value else BadKeys(rules)))
    {
      plain, table := map[], map[];
      blockSuffix, allowSuffix, blockExact, allowExact := map[], map[], map[], map[];
      blockRegex, allowRegex := [], [];
      new;
      hide AddRule, IsLive, BadKeys, LiveRules, Build, Imports, Holds, Indexes;
      var keys := if given.Some? then given.value else BadKeys(rules);
      NoneLive(rules, keys);
      NothingHeld();
      var imported: seq<(string, string)> := [];
      ghost var live: seq<Rule> := [];
      for i := 0 to |rules|
        invariant live == LiveRules(rules[..i], keys)
        invariant Holds(Contents(), imported, live)
      {
        LiveNext(rules, keys, i);
        if IsLive(rules[i], keys) {
          AddKeepsHolds(Contents(), imported, live, rules[i]);
          imported := Add(rules[i], imported);
          live := live + [rules[i]];
        }
      }
      assert rules[..|rules|] == rules;
      TableCompletes(Contents(), imported, live);
      table := Build(imported);
    }

    /** `_candidates`: every rule of one polarity that could apply. */
    method Candidates(cands: seq<string>, name: string, block: bool, search: (string, bool, string) -> bool)
      returns (out: seq<Rule>)
      ensures forall r :: r in out <==> IsCandidate(Contents(), cands, name, block, search, r)
    {
      var suffixTable := if block then blockSuffix else allowSuffix;
      var exactTable := if block then blockExact else allowExact;
      var regexes := if block then blockRegex else allowRegex;
      var bySuffix := FromBuckets(cands, suffixTable);
      var plainHits: seq<Rule> := [];
      if block {
        plainHits := FromPlain(cands);
      }
      var byRegex := Searching(regexes, name, search);
      out := bySuffix + plainHits + Filed(exactTable, name) + byRegex;
    }

    /** `match`. */
    method Match(qname: string, qtype: nat, ctags: set<string>, client: string, names: set<string>,
                 search: (string, bool, string) -> bool, inNet: (string, string) -> bool, ghost live: seq<Rule>)
      returns (d: Decision)
      requires Indexes(Contents(), live)
      ensures var q := Query(Normal(qname), qtype, ctags, client, names);
              && KindOf(d) == Scan(Held(live), q, search, inNet)
              && (d.action != Pass ==> exists r :: Reports(d, Held(live), q, r, search, inNet))
    {
      hide Indexes, IsCandidate, Applies, Hit, Held, Suffixes, Contents, Normal, Reports, Better, Covers, AnyHit, AnyImportantHit;
      var q := Query(Normal(qname), qtype, ctags, client, names);
      var cands := ComputeSuffixes(q.name);
      if cands == [] {
        NoNameNoSuffix(q.name);
        return Decision(Pass, None, "", "");
      }
      var block := Candidates(cands, q.name, true, search);
      var allow := Candidates(cands, q.name, false, search);
      block := Applicable(block, q, inNet);
      allow := Applicable(allow, q, inNet);
      NoNameNoSuffix(q.name);
      FoundCover(Contents(), live, q, true, block, search, inNet);
      FoundCover(Contents(), live, q, false, allow, search, inNet);
      CoverTells(block, Held(live), q, true, search, inNet);
      CoverTells(allow, Held(live), q, false, search, inNet);
      if block == [] && allow == [] {
        return Decision(Pass, None, "", "");
      }
      var blockImportant := exists r :: r in block && r.important;
      var allowImportant := exists r :: r in allow && r.important;
      if allow != [] && !(blockImportant && !allowImportant) {
        var r := MostSpecific(allow);
        d := Decision(Allowed, None, r.raw, r.source);
        BestIsReported(d, Held(live), q, allow, r, search, inNet);
        return d;
      }
      if block != [] {
        var r := MostSpecific(block);
        d := Decision(if r.rewrite.Some? then Rewritten else Blocked, r.rewrite, r.raw, r.source);
        BestIsReported(d, Held(live), q, block, r, search, inNet);
        return d;
      }
      return Decision(Pass, None, "", "");
    }

    method FromPlain(cands: seq<string>) returns (out: seq<Rule>)
      ensures forall r :: r in out <==> exists c :: c in cands && r in PlainFor(Contents(), c)
    {
      hide PlainFor;
      out := [];
      for i := 0 to |cands|
        invariant forall r :: r in out <==> exists c :: c in cands[..i] && r in PlainFor(Contents(), c)
      {
        assert cands[..i + 1] == cands[..i] + [cands[i]];
        var hits := PlainHits(cands[i]);
        out := out + hits;
      }
      assert cands[..|cands|] == cands;
    }

    method PlainHits(c: string) returns (hits: seq<Rule>)
      ensures hits == PlainFor(Contents(), c)
    {
      hits := [];
      if c in plain {
        hits := [PlainRule(c, c, plain[c])];
      } else if c in table {
        hits := [PlainRule(c, c, table[c])];
      }
    }
  }

  method FromBuckets(cands: seq<string>, b: Bucket) returns (out: seq<Rule>)
    ensures forall r :: r in out <==> exists c :: c in cands && r in Filed(b, c)
  {
    out := [];
    for i := 0 to |cands|
      invariant forall r :: r in out <==> exists c :: c in cands[..i] && r in Filed(b, c)
    {
      assert cands[..i + 1] == cands[..i] + [cands[i]];
      out := out + Filed(b, cands[i]);
    }
    assert cands[..|cands|] == cands;
  }

  method Searching(regexes: seq<Rule>, name: string, search: (string, bool, string) -> bool) returns (out: seq<Rule>)
    ensures forall r :: r in out <==> r in regexes && r.form.Regex? && search(r.form.text, r.form.glob, name)
  {
    out := [];
    for i := 0 to |regexes|
      invariant forall r :: r in out <==> r in regexes[..i] && r.form.Regex? && search(r.form.text, r.form.glob, name)
    {
      var r := regexes[i];
      assert regexes[..i + 1] == regexes[..i] + [r];
      if r.form.Regex? && search(r.form.text, r.form.glob, name) {
        out := out + [r];
      }
    }
    assert regexes[..|regexes|] == regexes;
  }

  lemma {:induction false} NoneLive(rules: seq<Rule>, keys: set<PatternId>)
    ensures LiveRules(rules[..0], keys) == []
  {
  }

  lemma {:induction false} LiveNext(rules: seq<Rule>, keys: set<PatternId>, i: nat)
    requires i < |rules|
    ensures LiveRules(rules[..i + 1], keys) ==
            LiveRules(rules[..i], keys) + if IsLive(rules[i], keys) then [rules[i]] else []
  {
    assert rules[..i + 1][..i] == rules[..i];
  }

  lemma {:induction false} NothingHeld()
    ensures Holds(Index(map[], map[], map[], map[], map[], map[], [], []), [], [])
  {
  }

  function LiveRules(rules: seq<Rule>, keys: set<PatternId>): (live: seq<Rule>)
    ensures forall r :: r in live <==> r in rules && IsLive(r, keys)
  {
    if rules == [] then []
    else
      var n := |rules| - 1;
      assert rules == rules[..n] + [rules[n]];
      LiveRules(rules[..n], keys) + if IsLive(rules[n], keys) then [rules[n]] else []
  }

  /** The plain rule that a candidate domain brings up: an operator's shadows the table's. */
  function PlainFor(ix: Index, c: string): seq<Rule> {
    if c in ix.plain then [PlainRule(c, c, ix.plain[c])]
    else if c in ix.table then [PlainRule(c, c, ix.table[c])]
    else []
  }

  ghost predicate IsCandidate(ix: Index, cands: seq<string>, name: string, block: bool,
                              search: (string, bool, string) -> bool, r: Rule)
  {
    || (exists c :: c in cands && r in Filed(if block then ix.blockSuffix else ix.allowSuffix, c))
    || (block && exists c :: c in cands && r in PlainFor(ix, c))
    || r in Filed(if block then ix.blockExact else ix.allowExact, name)
    || (r in (if block then ix.blockRegex else ix.allowRegex) && r.form.Regex? && search(r.form.text, r.form.glob, name))
  }

  // ---- What the index holds ----

  /** The rule belongs into this kind of bucket, under `d`. */
  ghost predicate Wants(r: Rule, d: string, exact: bool, block: bool) {
    r.block == block && r.form == (if exact then Exact(d) else Suffix(d)) && !IsPlain(r)
  }

  ghost predicate IsBucket(b: Bucket, live: seq<Rule>, exact: bool, block: bool) {
    forall d, r :: r in Filed(b, d) <==> r in live && Wants(r, d, exact, block)
  }

  ghost predicate IsRegexList(regexes: seq<Rule>, live: seq<Rule>, block: bool) {
    forall r :: r in regexes <==> r in live && r.form.Regex? && r.block == block
  }

  /** Every live rule but the plain ones is filed under its form and polarity, and
    * nothing else is. */
  ghost predicate Buckets(ix: Index, live: seq<Rule>) {
    && IsBucket(ix.blockSuffix, live, false, true) && IsBucket(ix.allowSuffix, live, false, false)
    && IsBucket(ix.blockExact, live, true, true) && IsBucket(ix.allowExact, live, true, false)
    && IsRegexList(ix.blockRegex, live, true) && IsRegexList(ix.allowRegex, live, false)
  }

  /** There is a plain live rule for this domain from this source. */
  ghost predicate Lists(live: seq<Rule>, d: string, source: string, operator: bool) {
    exists r :: r in live && IsPlain(r) && r.form == Suffix(d) && r.source == source && FromOperator(r) == operator
  }

  ghost predicate Plains(plain: map<string, string>, live: seq<Rule>) {
    && (forall d :: d in plain <==> exists s :: Lists(live, d, s, true))
    && (forall d :: d in plain ==> Lists(live, d, plain[d], true))
  }

  ghost predicate Holds(ix: Index, imported: seq<(string, string)>, live: seq<Rule>) {
    Buckets(ix, live) && Plains(ix.plain, live) && forall d, s :: (d, s) in imported <==> Lists(live, d, s, false)
  }

  ghost predicate Indexes(ix: Index, live: seq<Rule>) {
    && Buckets(ix, live) && Plains(ix.plain, live)
    && (forall d :: d in ix.table <==> Fits(d) && exists s :: Lists(live, d, s, false))
    && (forall d :: d in ix.table ==> Lists(live, d, ix.table[d], false))
  }

  lemma {:induction false} TableCompletes(ix: Index, imported: seq<(string, string)>, live: seq<Rule>)
    requires Holds(ix, imported, live)
    ensures Indexes(ix.(table := Build(imported)), live)
  {
    hide Lists, Build, IsBucket, IsRegexList, Plains;
    var t := Build(imported);
    forall d
      ensures d in t <==> Fits(d) && exists s :: Lists(live, d, s, false)
    {
      if Fits(d) && exists s :: Lists(live, d, s, false) {
        var s :| Lists(live, d, s, false);
        assert (d, s) in imported;
      }
    }
  }

  lemma {:induction false} AddKeepsHolds(ix: Index, imported: seq<(string, string)>, live: seq<Rule>, r: Rule)
    requires Holds(ix, imported, live)
    ensures Holds(AddRule(ix, r), imported + Imports(r), live + [r])
  {
    AddKeepsBuckets(ix, live, r);
    AddKeepsPlains(ix, live, r);
    forall d, s
      ensures (d, s) in imported + Imports(r) <==> Lists(live + [r], d, s, false)
    {
      OneMoreListed(live, r, d, s, false);
    }
  }

  lemma {:induction false} AddKeepsBuckets(ix: Index, live: seq<Rule>, r: Rule)
    requires Buckets(ix, live)
    ensures Buckets(AddRule(ix, r), live + [r])
  {
    hide IsBucket, IsRegexList, IsPlain;
    PlainIsAllThereIs(r);
    BucketGrows(ix.blockSuffix, live, false, true, r);
    BucketGrows(ix.allowSuffix, live, false, false, r);
    BucketGrows(ix.blockExact, live, true, true, r);
    BucketGrows(ix.allowExact, live, true, false, r);
    RegexListGrows(ix.blockRegex, live, true, r);
    RegexListGrows(ix.allowRegex, live, false, r);
  }

  lemma {:induction false} BucketGrows(b: Bucket, live: seq<Rule>, exact: bool, block: bool, r: Rule)
    requires IsBucket(b, live, exact, block)
    ensures IsBucket(if r.form.Suffix? && Wants(r, r.form.domain, exact, block) then File(b, r.form.domain, r)
                     else if r.form.Exact? && Wants(r, r.form.domain, exact, block) then File(b, r.form.domain, r)
                     else b, live + [r], exact, block)
  {
  }

  lemma {:induction false} RegexListGrows(regexes: seq<Rule>, live: seq<Rule>, block: bool, r: Rule)
    requires IsRegexList(regexes, live, block)
    ensures IsRegexList(if r.form.Regex? && r.block == block then regexes + [r] else regexes, live + [r], block)
  {
  }

  lemma {:induction false} OneMoreListed(live: seq<Rule>, r: Rule, d: string, s: string, operator: bool)
    ensures Lists(live + [r], d, s, operator) <==>
            Lists(live, d, s, operator)
            || (IsPlain(r) && r.form == Suffix(d) && r.source == s && FromOperator(r) == operator)
  {
    assert r in live + [r];
  }

  lemma {:induction false} AddKeepsPlains(ix: Index, live: seq<Rule>, r: Rule)
    requires Plains(ix.plain, live)
    ensures Plains(AddRule(ix, r).plain, live + [r])
  {
    hide Lists, Filed, File, Plains, FromOperator;
    if IsPlain(r) && FromOperator(r) {
      PlainsGrow(ix.plain, live, r);
    } else {
      PlainsStay(ix.plain, live, r);
    }
  }

  /** Another operator's plain rule: the first source of a domain stays. */
  lemma {:induction false} PlainsGrow(plain: map<string, string>, live: seq<Rule>, r: Rule)
    requires Plains(plain, live) && IsPlain(r) && FromOperator(r)
    ensures var d := r.form.domain;
            Plains(if d in plain then plain else plain[d := r.source], live + [r])
  {
    hide Lists, IsPlain, FromOperator;
    PlainIsAllThereIs(r);
    var plain' := if r.form.domain in plain then plain else plain[r.form.domain := r.source];
    forall d
      ensures d in plain' <==> exists s :: Lists(live + [r], d, s, true)
      ensures d in plain' ==> Lists(live + [r], d, plain'[d], true)
    {
      ListedBefore(live, r, d);
      OneMoreListed(live, r, d, r.source, true);
      if d in plain {
        OneMoreListed(live, r, d, plain[d], true);
      }
    }
  }

  lemma {:induction false} PlainsStay(plain: map<string, string>, live: seq<Rule>, r: Rule)
    requires Plains(plain, live) && !(IsPlain(r) && FromOperator(r))
    ensures Plains(plain, live + [r])
  {
    hide Lists, IsPlain, FromOperator;
    forall d
      ensures d in plain <==> exists s :: Lists(live + [r], d, s, true)
      ensures d in plain ==> Lists(live + [r], d, plain[d], true)
    {
      ListedBefore(live, r, d);
      if d in plain {
        OneMoreListed(live, r, d, plain[d], true);
      }
    }
  }

  /** Who lists a domain among one rule more. */
  lemma {:induction false} ListedBefore(live: seq<Rule>, r: Rule, d: string)
    ensures (exists s :: Lists(live + [r], d, s, true)) <==>
            (exists s :: Lists(live, d, s, true)) || (IsPlain(r) && r.form == Suffix(d) && FromOperator(r))
  {
    hide Lists, IsPlain, FromOperator;
    OneMoreListed(live, r, d, r.source, true);
    if s :| Lists(live + [r], d, s, true) {
      OneMoreListed(live, r, d, s, true);
    }
    if s :| Lists(live, d, s, true) {
      OneMoreListed(live, r, d, s, true);
    }
  }

  // ---- Matching through the index ----

  /** `_applicable`. */
  method Applicable(rules: seq<Rule>, q: Query, inNet: (string, string) -> bool) returns (out: seq<Rule>)
    ensures forall r :: r in out <==> r in rules && Applies(r, q, inNet)
  {
    hide Applies;
    out := [];
    for i := 0 to |rules|
      invariant forall r :: r in out <==> r in rules[..i] && Applies(r, q, inNet)
    {
      assert rules[..i + 1] == rules[..i] + [rules[i]];
      if Applies(rules[i], q, inNet) {
        out := out + [rules[i]];
      }
    }
    assert rules[..|rules|] == rules;
  }

  /** `_most_specific`. */
  method MostSpecific(rules: seq<Rule>) returns (best: Rule)
    requires rules != []
    ensures best in rules && forall x :: x in rules ==> !Better(x, best)
  {
    best := rules[0];
    for i := 1 to |rules|
      invariant best in rules && forall j :: 0 <= j < i ==> !Better(rules[j], best)
    {
      if Better(rules[i], best) {
        best := rules[i];
      }
    }
  }

  /** The live rules that the index can hold: the table takes no domain over 255 octets. */
  function Held(live: seq<Rule>): (held: seq<Rule>)
    ensures forall r :: r in held <==> r in live && Holdable(r)
  {
    if live == [] then []
    else (if Holdable(live[0]) then [live[0]] else []) + Held(live[1..])
  }

  predicate Holdable(r: Rule) {
    IsPlain(r) && !FromOperator(r) ==> Fits(r.form.domain)
  }

  /** The index brings up `m` for the rule `r`. */
  ghost predicate StandsFor(m: Rule, r: Rule) {
    if IsPlain(r) then IsPlain(m) && m.form == r.form && m.raw == Shown(r) else m == r
  }

  lemma {:induction false} NoNameNoSuffix(name: string)
    ensures Suffixes(name) == [] <==> name == ""
  {
  }

  /** Whatever the index brings up stands for a live rule that matches, with its source. */
  lemma {:induction false} CandidateIsRule(ix: Index, live: seq<Rule>, name: string, block: bool,
                                           search: (string, bool, string) -> bool, m: Rule) returns (r: Rule)
    requires Indexes(ix, live) && name != "" && IsCandidate(ix, Suffixes(name), name, block, search, m)
    ensures r in Held(live) && r.block == block && FormMatches(r.form, name, search)
    ensures StandsFor(m, r) && m.source == r.source
  {
    hide Suffixes, Under, IsBucket, Plains, Lists;
    var suffixes, exacts := if block then ix.blockSuffix else ix.allowSuffix, if block then ix.blockExact else ix.allowExact;
    assert IsBucket(suffixes, live, false, block) && IsBucket(exacts, live, true, block);
    if c :| c in Suffixes(name) && m in Filed(suffixes, c) {
      SuffixesAreParents(name, c);
      FiledIsRule(suffixes, live, false, block, c, m);
      r := m;
    } else if c :| block && c in Suffixes(name) && m in PlainFor(ix, c) {
      SuffixesAreParents(name, c);
      r := PlainIsListed(ix, live, c);
    } else if m in Filed(exacts, name) {
      FiledIsRule(exacts, live, true, block, name, m);
      r := m;
    } else {
      r := m;
    }
  }

  lemma {:induction false} FiledIsRule(b: Bucket, live: seq<Rule>, exact: bool, block: bool, d: string, m: Rule)
    requires IsBucket(b, live, exact, block) && m in Filed(b, d)
    ensures m in Held(live) && m.block == block && m.form == (if exact then Exact(d) else Suffix(d)) && !IsPlain(m)
  {
    assert Wants(m, d, exact, block);
  }

  lemma {:induction false} ListedRule(live: seq<Rule>, d: string, source: string, operator: bool) returns (r: Rule)
    requires Lists(live, d, source, operator)
    ensures r in live && IsPlain(r) && r.form == Suffix(d) && r.source == source && FromOperator(r) == operator
  {
    r :| r in live && IsPlain(r) && r.form == Suffix(d) && r.source == source && FromOperator(r) == operator;
  }

  lemma {:induction false} PlainIsListed(ix: Index, live: seq<Rule>, c: string) returns (r: Rule)
    requires Indexes(ix, live) && PlainFor(ix, c) != []
    ensures r in Held(live) && r.block && r.form == Suffix(c)
    ensures StandsFor(PlainFor(ix, c)[0], r) && PlainFor(ix, c)[0].source == r.source
  {
    var operator := c in ix.plain;
    hide Lists, Buckets;
    r := ListedRule(live, c, if operator then ix.plain[c] else ix.table[c], operator);
  }

  /** Every live rule that matches and fits is brought up, itself or by a stand-in. */
  lemma {:induction false} RuleIsFound(ix: Index, live: seq<Rule>, name: string, block: bool,
                                       search: (string, bool, string) -> bool, r: Rule) returns (m: Rule)
    requires Indexes(ix, live) && name != "" && r in Held(live) && r.block == block && FormMatches(r.form, name, search)
    ensures IsCandidate(ix, Suffixes(name), name, block, search, m) && StandsFor(m, r)
  {
    hide Suffixes, Under;
    m := r;
    if r.form.Suffix? {
      SuffixesAreParents(name, r.form.domain);
      if IsPlain(r) {
        m := StandIn(ix, live, r);
      }
    }
  }

  /** A plain rule has a plain stand-in for its domain. */
  lemma {:induction false} StandIn(ix: Index, live: seq<Rule>, r: Rule) returns (m: Rule)
    requires Indexes(ix, live) && r in Held(live) && IsPlain(r)
    ensures PlainFor(ix, r.form.domain) != [] && m == PlainFor(ix, r.form.domain)[0] && StandsFor(m, r)
  {
    hide Held, Shown;
    assert r in live && Holdable(r) by {
      HeldIsLive(live, r);
    }
    hide Buckets, Fits, FromOperator, StandsFor;
    assert Lists(live, r.form.domain, r.source, FromOperator(r));
    PlainIsThere(ix, live, r);
    m := PlainFor(ix, r.form.domain)[0];
    PlainStands(ix, r);
  }

  lemma {:induction false} HeldIsLive(live: seq<Rule>, r: Rule)
    requires r in Held(live)
    ensures r in live && Holdable(r)
  {
  }

  lemma {:induction false} PlainIsThere(ix: Index, live: seq<Rule>, r: Rule)
    requires Indexes(ix, live) && Holdable(r) && IsPlain(r) && Lists(live, r.form.domain, r.source, FromOperator(r))
    ensures PlainFor(ix, r.form.domain) != []
  {
    hide Buckets, Lists, FromOperator;
    if FromOperator(r) {
      assert Lists(live, r.form.domain, r.source, true);
    } else {
      assert Lists(live, r.form.domain, r.source, false);
    }
  }

  lemma {:induction false} PlainStands(ix: Index, r: Rule)
    requires IsPlain(r) && PlainFor(ix, r.form.domain) != []
    ensures StandsFor(PlainFor(ix, r.form.domain)[0], r)
  {
  }

  /** What was found stands for exactly the rules that hit. */
  ghost predicate Covers(found: seq<Rule>, rules: seq<Rule>, q: Query, block: bool,
                         search: (string, bool, string) -> bool, inNet: (string, string) -> bool)
  {
    && (forall m :: m in found ==> exists r :: Hit(rules, q, block, r, search, inNet) && StandsFor(m, r) && m.source == r.source)
    && (forall r :: Hit(rules, q, block, r, search, inNet) ==> exists m :: m in found && StandsFor(m, r))
  }

  lemma {:induction false} FoundCover(ix: Index, live: seq<Rule>, q: Query, block: bool, found: seq<Rule>,
                                      search: (string, bool, string) -> bool, inNet: (string, string) -> bool)
    requires Indexes(ix, live) && q.name != ""
    requires forall m :: m in found <==>
               IsCandidate(ix, Suffixes(q.name), q.name, block, search, m) && Applies(m, q, inNet)
    ensures Covers(found, Held(live), q, block, search, inNet)
  {
    hide Indexes, IsCandidate, Applies, Held, FormMatches, StandsFor, Suffixes;
    forall m | m in found
      ensures exists r :: Hit(Held(live), q, block, r, search, inNet) && StandsFor(m, r) && m.source == r.source
    {
      var r := CandidateIsRule(ix, live, q.name, block, search, m);
      StandInActsAlike(m, r, q, inNet);
      assert Hit(Held(live), q, block, r, search, inNet);
    }
    forall r | Hit(Held(live), q, block, r, search, inNet)
      ensures exists m :: m in found && StandsFor(m, r)
    {
      var m := RuleIsFound(ix, live, q.name, block, search, r);
      StandInActsAlike(m, r, q, inNet);
      assert m in found;
    }
  }

  lemma {:induction false} CoverTells(found: seq<Rule>, rules: seq<Rule>, q: Query, block: bool,
                                      search: (string, bool, string) -> bool, inNet: (string, string) -> bool)
    requires Covers(found, rules, q, block, search, inNet)
    ensures found != [] <==> AnyHit(rules, q, block, search, inNet)
    ensures (exists m :: m in found && m.important) <==> AnyImportantHit(rules, q, block, search, inNet)
  {
    hide StandsFor, Hit, Covers;
    if found != [] {
      var _ := CoveredBy(found, rules, q, block, search, inNet, found[0]);
    }
    if r :| Hit(rules, q, block, r, search, inNet) {
      var _ := CoverOf(found, rules, q, block, search, inNet, r);
    }
    if m :| m in found && m.important {
      var _ := CoveredBy(found, rules, q, block, search, inNet, m);
    }
    if r :| Hit(rules, q, block, r, search, inNet) && r.important {
      var _ := CoverOf(found, rules, q, block, search, inNet, r);
    }
  }

  lemma {:induction false} CoveredBy(found: seq<Rule>, rules: seq<Rule>, q: Query, block: bool,
                                     search: (string, bool, string) -> bool, inNet: (string, string) -> bool, m: Rule)
    returns (r: Rule)
    requires Covers(found, rules, q, block, search, inNet) && m in found
    ensures Hit(rules, q, block, r, search, inNet) && StandsFor(m, r) && m.source == r.source && m.raw == Shown(r)
    ensures m.important == r.important && m.rewrite == r.rewrite && Length(m) == Length(r)
  {
    hide Hit, StandsFor;
    r :| Hit(rules, q, block, r, search, inNet) && StandsFor(m, r) && m.source == r.source;
    StandInActsAlike(m, r, q, inNet);
  }

  lemma {:induction false} CoverOf(found: seq<Rule>, rules: seq<Rule>, q: Query, block: bool,
                                   search: (string, bool, string) -> bool, inNet: (string, string) -> bool, r: Rule)
    returns (m: Rule)
    requires Covers(found, rules, q, block, search, inNet) && Hit(rules, q, block, r, search, inNet)
    ensures m in found && m.important == r.important && m.rewrite == r.rewrite && Length(m) == Length(r)
  {
    hide Hit, StandsFor;
    m :| m in found && StandsFor(m, r);
    StandInActsAlike(m, r, q, inNet);
  }

  lemma {:induction false} StandInActsAlike(m: Rule, r: Rule, q: Query, inNet: (string, string) -> bool)
    requires StandsFor(m, r)
    ensures Applies(m, q, inNet) == Applies(r, q, inNet) && m.block == r.block && m.raw == Shown(r)
    ensures m.important == r.important && m.rewrite == r.rewrite && Length(m) == Length(r)
  {
  }

  /** The best of what was found may be reported: no rule that hits is better. */
  lemma {:induction false} BestIsReported(d: Decision, rules: seq<Rule>, q: Query, found: seq<Rule>, best: Rule,
                                          search: (string, bool, string) -> bool, inNet: (string, string) -> bool)
    requires d.action != Pass && Covers(found, rules, q, d.action != Allowed, search, inNet)
    requires best in found && forall x :: x in found ==> !Better(x, best)
    requires d.source == best.source && d.rule == best.raw
    requires d.action == Rewritten <==> d.action != Allowed && best.rewrite.Some?
    requires d.action == Rewritten ==> d.rewrite == best.rewrite
    ensures exists r :: Reports(d, rules, q, r, search, inNet)
  {
    hide Covers, StandsFor, Hit;
    var block := d.action != Allowed;
    var r := CoveredBy(found, rules, q, block, search, inNet, best);
    forall x | Hit(rules, q, block, x, search, inNet)
      ensures !Better(x, r)
    {
      var m := CoverOf(found, rules, q, block, search, inNet, x);
      assert !Better(m, best);
    }
    assert Reports(d, rules, q, r, search, inNet);
  }

  // ---- Against the whole rule list ----

  /** For a name of at most 255 characters, what the index cannot hold does not
    * matter: the scan over all live rules comes to the same. */
  lemma {:induction false} LongRulesDoNotMatter(live: seq<Rule>, q: Query, qname: string,
                                                search: (string, bool, string) -> bool, inNet: (string, string) -> bool)
    requires q.name == Normal(qname) && |q.name| <= 255
    ensures Scan(Held(live), q, search, inNet) == Scan(live, q, search, inNet)
  {
    hide Normal, Applies;
    if q.name != "" {
      forall r, block
        ensures Hit(Held(live), q, block, r, search, inNet) <==> Hit(live, q, block, r, search, inNet)
      {
        NotUnderLong(qname, r);
      }
    }
  }

  lemma {:induction false} NotUnderLong(qname: string, r: Rule)
    requires 0 < |Normal(qname)| <= 255
    ensures !Holdable(r) ==> !Under(Normal(qname), r.form.domain)
  {
    NoDotAtEnd(qname);
    var name, n := Normal(qname), |Normal(qname)|;
    assert name[n - 1] == LowerChar(StripDots(qname)[n - 1]) != '.';
    assert "." + "" == "." && name[n - 1..][0] != '.';
  }

  lemma {:induction false} NoDotAtEnd(qname: string)
    ensures StripDots(qname) != "" ==> StripDots(qname)[|StripDots(qname)| - 1] != '.'
    decreases |qname|
  {
    if qname != "" && qname[|qname| - 1] == '.' {
      NoDotAtEnd(qname[..|qname| - 1]);
    }
  }

  /** Compiling a rule list and matching a name against the index decides as
    * evaluating every live rule of the list does. */
  method Decide(rules: seq<Rule>, qname: string, qtype: nat, ctags: set<string>, client: string, names: set<string>,
                search: (string, bool, string) -> bool, inNet: (string, string) -> bool) returns (d: Decision)
    requires |Normal(qname)| <= 255
    ensures var q := Query(Normal(qname), qtype, ctags, client, names);
            KindOf(d) == Scan(LiveRules(rules, BadKeys(rules)), q, search, inNet)
  {
    hide *;
    ghost var live := LiveRules(rules, BadKeys(rules));
    var engine := new Engine.Compile(rules, None);
    d := engine.Match(qname, qtype, ctags, client, names, search, inNet, live);
    LongRulesDoNotMatter(live, Query(Normal(qname), qtype, ctags, client, names), qname, search, inNet);
  }

  /** Beyond that it does matter: an imported block rule for a domain of more than
    * 255 octets is dropped when the table is built, and the engine lets the very
    * name pass that the rule blocks. */
  method LongRuleIsLost(domain: string, search: (string, bool, string) -> bool, inNet: (string, string) -> bool)
    returns (d: Decision)
    requires |domain| > 255 && Normal(domain) == domain
    ensures var r := PlainRule(domain, domain, "list");
            Scan(LiveRules([r], BadKeys([r])), Query(domain, 1, {}, "", {}), search, inNet) == BlockOrRewrite
    ensures d.action == Pass
  {
    hide Indexes, Normal, Reports, LiveRules, BadKeys;
    var r := PlainRule(domain, domain, "list");
    OnlyLongRule(domain, search, inNet);
    var engine := new Engine.Compile([r], None);
    d := engine.Match(domain, 1, {}, "", {}, search, inNet, [r]);
  }

  lemma {:induction false} OnlyLongRule(domain: string, search: (string, bool, string) -> bool,
                                        inNet: (string, string) -> bool)
    requires |domain| > 255
    ensures var r := PlainRule(domain, domain, "list");
            var q := Query(domain, 1, {}, "", {});
            && LiveRules([r], BadKeys([r])) == [r]
            && Scan([r], q, search, inNet) == BlockOrRewrite && Scan(Held([r]), q, search, inNet) == NoMatch
  {
    var r := PlainRule(domain, domain, "list");
    var q := Query(domain, 1, {}, "", {});
    assert Hit([r], q, true, r, search, inNet);
    assert Held([r]) == [];
    assert [r][..0] == [] && LiveRules([], BadKeys([r])) == [];
  }

  /** One pattern: of one kind, and the same text. */
  predicate SamePattern(a: Form, b: Form) {
    match (a, b)
    case (Suffix(d), Suffix(e)) => d == e
    case (Exact(d), Exact(e)) => d == e
    case (Regex(t, _), Regex(u, _)) => t == u
    case (NoForm, NoForm) => true
    case _ => false
  }

  /** `$badfilter` takes away exactly the rules of its pattern and polarity that do
    * not rewrite, and itself. */
  lemma {:induction false} BadfilterRemoves(rules: seq<Rule>, r: Rule)
    requires r in rules
    ensures r !in LiveRules(rules, BadKeys(rules)) <==>
            || r.badfilter
            || (r.rewrite.None? && exists b :: b in rules && b.badfilter && b.block == r.block && SamePattern(b.form, r.form))
  {
    forall b: Rule
      ensures IdOf(b) == IdOf(r) <==> b.block == r.block && SamePattern(b.form, r.form)
    {
    }
  }
}
