/** Choosing the resolver for a name: a policy checked and arranged once, then looked up by hash
    (src/dns/policy.rs). */
module Policy {
  import opened Common

  datatype Kind = Doh | Plain

  datatype Resolver = Resolver(id: string, kind: Kind, url: Option<string>, address: string, tunnel: bool)

  datatype Match = Exact(name: string) | Suffix(name: string) | Any

  datatype Rule = Rule(matcher: Match, resolver: string, programs: seq<string>, route: bool)

  /** The program that asked, by path and by file name. */
  datatype Asker = Asker(path: string, name: string)

  datatype PolicyError =
    | UnknownResolver(rule: nat, resolver: string)
    | DuplicateResolver(id: string)
    | EmptyMatch(rule: nat)
    | MissingUrl(id: string)

  datatype Policy = Policy(
    resolvers: map<string, Resolver>,
    rules: seq<Rule>,
    exact: map<string, seq<nat>>,
    suffix: map<string, seq<nat>>,
    any: seq<nat>)

  datatype Decision = Decision(resolver: Resolver, route: bool, rule: nat)

  // ----- names as they are compared -----

  function LowerChar(c: char): char {
    if 'A' <= c <= 'Z' then c + 32 as char else c
  }

  function Lower(s: string): (r: string)
    ensures |r| == |s|
  {
    seq(|s|, i requires 0 <= i < |s| => LowerChar(s[i]))
  }

  function TrimDots(s: string): string {
    if s != [] && s[|s| - 1] == '.' then TrimDots(s[..|s| - 1]) else s
  }

  function Normalise(name: string): string {
    Lower(TrimDots(name))
  }

  function NormaliseProgram(program: string): string {
    var lower := Lower(program);
    seq(|lower|, i requires 0 <= i < |lower| => if lower[i] == '/' then '\\' else lower[i])
  }

  function NormaliseRule(rule: Rule): Rule {
    var matcher :=
      match rule.matcher
      case Exact(name) => Exact(Normalise(name))
      case Suffix(name) => Suffix(Normalise(name))
      case Any => Any;
    rule.(matcher := matcher,
          programs := seq(|rule.programs|, i requires 0 <= i < |rule.programs| => NormaliseProgram(rule.programs[i])))
  }

  function Rules(input: seq<Rule>): (rules: seq<Rule>)
    ensures |rules| == |input|
    ensures forall i :: 0 <= i < |input| ==> rules[i] == NormaliseRule(input[i])
  {
    seq(|input|, i requires 0 <= i < |input| => NormaliseRule(input[i]))
  }

  // ----- what is wrong with a policy -----

  function ResolverFault(resolvers: seq<Resolver>, n: nat): Option<PolicyError>
    requires n <= |resolvers|
  {
    if n == 0 then None
    else
      var r := resolvers[n - 1];
      if ResolverFault(resolvers, n - 1).Some? then ResolverFault(resolvers, n - 1)
      else if r.kind == Doh && r.url.None? then Some(MissingUrl(r.id))
      else if exists i :: 0 <= i < n - 1 && resolvers[i].id == r.id then Some(DuplicateResolver(r.id))
      else None
  }

  predicate Declared(resolvers: seq<Resolver>, id: string) {
    exists i :: 0 <= i < |resolvers| && resolvers[i].id == id
  }

  function RuleFault(resolvers: seq<Resolver>, rules: seq<Rule>, n: nat): Option<PolicyError>
    requires n <= |rules|
  {
    if n == 0 then None
    else
      var rule := rules[n - 1];
      if RuleFault(resolvers, rules, n - 1).Some? then RuleFault(resolvers, rules, n - 1)
      else if !Declared(resolvers, rule.resolver) then Some(UnknownResolver(n - 1, rule.resolver))
      else if !rule.matcher.Any? && Normalise(rule.matcher.name) == "" then Some(EmptyMatch(n - 1))
      else None
  }

  /** The first thing wrong: resolvers before rules, each in order. */
  function Fault(resolvers: seq<Resolver>, rules: seq<Rule>): Option<PolicyError> {
    var fault := ResolverFault(resolvers, |resolvers|);
    if fault.Some? then fault else RuleFault(resolvers, rules, |rules|)
  }

  // ----- the arrangement -----

  /** The numbers of the first `n` rules whose matcher is `m`, lowest first. */
  function Numbers(rules: seq<Rule>, n: nat, m: Match): (r: seq<nat>)
    requires n <= |rules|
    ensures forall i: nat :: i in r <==> i < n && rules[i].matcher == m
  {
    if n == 0 then []
    else if rules[n - 1].matcher == m then Numbers(rules, n - 1, m) + [n - 1]
    else Numbers(rules, n - 1, m)
  }

  function Lookup(index: map<string, seq<nat>>, name: string): seq<nat> {
    if name in index then index[name] else []
  }

  ghost predicate Indexed(exact: map<string, seq<nat>>, suffix: map<string, seq<nat>>, any: seq<nat>,
                          rules: seq<Rule>, n: nat)
    requires n <= |rules|
  {
    && (forall name :: Lookup(exact, name) == Numbers(rules, n, Exact(name)))
    && (forall name :: Lookup(suffix, name) == Numbers(rules, n, Suffix(name)))
    && any == Numbers(rules, n, Any)
  }

  /** A policy as it is built from what the application wrote. */
  ghost predicate Built(p: Policy, resolvers: seq<Resolver>, rules: seq<Rule>) {
    && p.rules == Rules(rules)
    && Indexed(p.exact, p.suffix, p.any, p.rules, |p.rules|)
    && (forall id :: id in p.resolvers <==> Declared(resolvers, id))
    && (forall id :: id in p.resolvers ==> p.resolvers[id] in resolvers && p.resolvers[id].id == id)
    && (forall i :: 0 <= i < |p.rules| ==> p.rules[i].resolver in p.resolvers)
    && (forall i :: 0 <= i < |p.rules| ==> p.rules[i].matcher.Any? || p.rules[i].matcher.name != "")
  }

  method CheckResolvers(resolvers: seq<Resolver>) returns (r: Result<map<string, Resolver>, PolicyError>)
    ensures r.Err? <==> ResolverFault(resolvers, |resolvers|).Some?
    ensures r.Err? ==> r.error == ResolverFault(resolvers, |resolvers|).value
    ensures r.Ok? ==> forall id :: id in r.value <==> Declared(resolvers, id)
    ensures r.Ok? ==> forall id :: id in r.value ==> r.value[id] in resolvers && r.value[id].id == id
  {
    var held: map<string, Resolver> := map[];
    var n := 0;
    while n < |resolvers|
      invariant 0 <= n <= |resolvers|
      invariant ResolverFault(resolvers, n).None?
      invariant forall id :: id in held <==> exists i :: 0 <= i < n && resolvers[i].id == id
      invariant forall id :: id in held ==> held[id] in resolvers && held[id].id == id
    {
      var resolver := resolvers[n];
      if resolver.kind == Doh && resolver.url.None? {
        FaultStays(resolvers, n + 1, |resolvers|);
        return Err(MissingUrl(resolver.id));
      }
      if resolver.id in held {
        FaultStays(resolvers, n + 1, |resolvers|);
        return Err(DuplicateResolver(resolver.id));
      }
      held := held[resolver.id := resolver];
      n := n + 1;
    }
    return Ok(held);
  }

  lemma {:induction false} FaultStays(resolvers: seq<Resolver>, m: nat, n: nat)
    requires m <= n <= |resolvers| && ResolverFault(resolvers, m).Some?
    ensures ResolverFault(resolvers, n) == ResolverFault(resolvers, m)
    decreases n
  {
    if m < n {
      FaultStays(resolvers, m, n - 1);
    }
  }

  lemma {:induction false} RuleFaultStays(resolvers: seq<Resolver>, rules: seq<Rule>, m: nat, n: nat)
    requires m <= n <= |rules| && RuleFault(resolvers, rules, m).Some?
    ensures RuleFault(resolvers, rules, n) == RuleFault(resolvers, rules, m)
    decreases n
  {
    if m < n {
      RuleFaultStays(resolvers, rules, m, n - 1);
    }
  }

  /** What is wrong with the first `n + 1` rules, when nothing is with the first `n`. */
  lemma NextRuleFault(resolvers: seq<Resolver>, rules: seq<Rule>, n: nat)
    requires n < |rules| && RuleFault(resolvers, rules, n).None?
    ensures var rule := rules[n];
            var fault :=
              if !Declared(resolvers, rule.resolver) then Some(UnknownResolver(n, rule.resolver))
              else if !rule.matcher.Any? && Normalise(rule.matcher.name) == "" then Some(EmptyMatch(n))
              else None;
            RuleFault(resolvers, rules, n + 1) == fault &&
            (fault.Some? ==> RuleFault(resolvers, rules, |rules|) == fault)
  {
    if RuleFault(resolvers, rules, n + 1).Some? {
      RuleFaultStays(resolvers, rules, n + 1, |rules|);
    }
  }

  lemma NoRuleFault(resolvers: seq<Resolver>, rules: seq<Rule>)
    ensures RuleFault(resolvers, rules, 0).None?
  {
  }

  /** Check the rules one by one, normalise each, and file it by what it matches. */
  method Arrange(held: map<string, Resolver>, ghost resolvers: seq<Resolver>, rules: seq<Rule>)
    returns (r: Result<Policy, PolicyError>)
    requires forall id :: id in held <==> Declared(resolvers, id)
    ensures r.Err? <==> RuleFault(resolvers, rules, |rules|).Some?
    ensures r.Err? ==> r.error == RuleFault(resolvers, rules, |rules|).value
    ensures r.Ok? ==>
              && r.value.resolvers == held && r.value.rules == Rules(rules)
              && Indexed(r.value.exact, r.value.suffix, r.value.any, r.value.rules, |r.value.rules|)
              && (forall i :: 0 <= i < |rules| ==> r.value.rules[i].resolver in held)
              && (forall i :: 0 <= i < |rules| ==>
                    r.value.rules[i].matcher.Any? || r.value.rules[i].matcher.name != "")
  {
    hide RuleFault, Declared, Indexed, Normalise, Lookup;
    ghost var all := Rules(rules);
    var kept: seq<Rule> := [];
    var exact: map<string, seq<nat>>, suffix: map<string, seq<nat>>, any: seq<nat> := map[], map[], [];
    NothingIndexed(all);
    NoRuleFault(resolvers, rules);
    var n := 0;
    while n < |rules|
      invariant 0 <= n <= |rules|
      invariant RuleFault(resolvers, rules, n).None?
      invariant kept == all[..n]
      invariant Indexed(exact, suffix, any, all, n)
      invariant forall i :: 0 <= i < n ==> all[i].resolver in held
      invariant forall i :: 0 <= i < n ==> all[i].matcher.Any? || all[i].matcher.name != ""
    {
      NextRuleFault(resolvers, rules, n);
      var rule := rules[n];
      if rule.resolver !in held {
        return Err(UnknownResolver(n, rule.resolver));
      }
      var normal := NormaliseRule(rule);
      assert normal == all[n];
      if !normal.matcher.Any? && normal.matcher.name == "" {
        return Err(EmptyMatch(n));
      }
      IndexedNext(exact, suffix, any, all, n);
      match normal.matcher {
        case Exact(name) => exact := exact[name := Lookup(exact, name) + [n]];
        case Suffix(name) => suffix := suffix[name := Lookup(suffix, name) + [n]];
        case Any => any := any + [n];
      }
      kept := kept + [normal];
      n := n + 1;
    }
    assert all[..n] == all;
    return Ok(Policy(held, kept, exact, suffix, any));
  }

  /** Turn what the application wrote into a policy: refused exactly when something is wrong, for the first
      thing that is. */
  method Build(resolvers: seq<Resolver>, rules: seq<Rule>) returns (r: Result<Policy, PolicyError>)
    ensures r.Err? <==> Fault(resolvers, rules).Some?
    ensures r.Err? ==> r.error == Fault(resolvers, rules).value
    ensures r.Ok? ==> Built(r.value, resolvers, rules)
  {
    hide RuleFault, ResolverFault, Declared, Indexed;
    var held := CheckResolvers(resolvers);
    if held.Err? {
      return Err(held.error);
    }
    r := Arrange(held.value, resolvers, rules);
  }

  lemma NothingIndexed(rules: seq<Rule>)
    ensures Indexed(map[], map[], [], rules, 0)
  {
  }

  lemma IndexedNext(exact: map<string, seq<nat>>, suffix: map<string, seq<nat>>, any: seq<nat>,
                    rules: seq<Rule>, n: nat)
    requires n < |rules| && Indexed(exact, suffix, any, rules, n)
    ensures match rules[n].matcher
            case Exact(name) => Indexed(exact[name := Lookup(exact, name) + [n]], suffix, any, rules, n + 1)
            case Suffix(name) => Indexed(exact, suffix[name := Lookup(suffix, name) + [n]], any, rules, n + 1)
            case Any => Indexed(exact, suffix, any + [n], rules, n + 1)
  {
    hide Numbers, Lookup;
    NumbersNext(rules, n, Any);
    forall name: string
      ensures rules[n].matcher != Exact(name) ==> Numbers(rules, n + 1, Exact(name)) == Lookup(exact, name)
      ensures rules[n].matcher != Suffix(name) ==> Numbers(rules, n + 1, Suffix(name)) == Lookup(suffix, name)
    {
      NumbersNext(rules, n, Exact(name));
      NumbersNext(rules, n, Suffix(name));
    }
    match rules[n].matcher
    case Exact(name) =>
      NumbersNext(rules, n, Exact(name));
      LookupWith(exact, name, Lookup(exact, name) + [n]);
    case Suffix(name) =>
      NumbersNext(rules, n, Suffix(name));
      LookupWith(suffix, name, Lookup(suffix, name) + [n]);
    case Any =>
  }

  lemma LookupWith(index: map<string, seq<nat>>, name: string, found: seq<nat>)
    ensures Lookup(index[name := found], name) == found
    ensures forall other :: other != name ==> Lookup(index[name := found], other) == Lookup(index, other)
  {
  }

  lemma NumbersNext(rules: seq<Rule>, n: nat, m: Match)
    requires n < |rules|
    ensures Numbers(rules, n + 1, m) ==
            if rules[n].matcher == m then Numbers(rules, n, m) + [n] else Numbers(rules, n, m)
  {
  }

  // ----- matching -----

  /** Labels are matched whole: the name itself, or the name under it after a dot. */
  predicate Matches(m: Match, name: string) {
    match m
    case Exact(n) => name == n
    case Suffix(n) => name == n || (|name| > |n| && name[|name| - |n| - 1..] == "." + n)
    case Any => true
  }

  predicate AppliesTo(programs: seq<string>, asker: Option<Asker>) {
    || programs == []
    || (asker.Some? && exists i :: 0 <= i < |programs| &&
                                   (programs[i] == asker.value.path || programs[i] == asker.value.name))
  }

  predicate Admits(rule: Rule, name: string, asker: Option<Asker>) {
    Matches(rule.matcher, name) && AppliesTo(rule.programs, asker)
  }

  /** Walking the rules in order: the first from `i` on that matches the name and admits the asker. */
  function FirstMatch(rules: seq<Rule>, name: string, asker: Option<Asker>, i: nat): (r: Option<nat>)
    requires i <= |rules|
    ensures r.Some? ==> i <= r.value < |rules| && Admits(rules[r.value], name, asker)
    ensures forall k :: i <= k < (if r.Some? then r.value else |rules|) ==> !Admits(rules[k], name, asker)
    decreases |rules| - i
  {
    if i == |rules| then None
    else if Admits(rules[i], name, asker) then Some(i)
    else FirstMatch(rules, name, asker, i + 1)
  }

  // ----- rules as they were written -----

  /** `d` is `c`, but lower case if `c` is an upper-case letter of ASCII. */
  predicate LowerOf(c: char, d: char) {
    if 'A' <= c <= 'Z' then d as int == c as int + 32 else d == c
  }

  /** How a name as written is read: up to case, and without the dots it ends in. */
  ghost predicate ReadsAs(written: string, read: string) {
    && |read| <= |written| && (read != [] ==> read[|read| - 1] != '.')
    && (forall i :: 0 <= i < |read| ==> LowerOf(written[i], read[i]))
    && (forall i :: |read| <= i < |written| ==> written[i] == '.')
  }

  /** How a program as written is read: up to case, with either slash for a separator. */
  ghost predicate ProgramReadsAs(written: string, read: string) {
    && |read| == |written|
    && forall i :: 0 <= i < |read| ==> if written[i] == '/' then read[i] == '\\' else LowerOf(written[i], read[i])
  }

  /** A rule as written is about a name: about all, or its own, or one that its own follows a dot of. */
  ghost predicate IsAbout(m: Match, name: string) {
    match m
    case Exact(written) => ReadsAs(written, name)
    case Suffix(written) =>
      ReadsAs(written, name) || exists at :: 0 <= at < |name| && name[at] == '.' && ReadsAs(written, name[at + 1..])
    case Any => true
  }

  /** A rule as written is for an asker: it names no program, or the asker's path or file name. */
  ghost predicate IsFor(programs: seq<string>, asker: Option<Asker>) {
    || programs == []
    || (asker.Some? && exists i :: 0 <= i < |programs| &&
                                   (ProgramReadsAs(programs[i], asker.value.path) ||
                                    ProgramReadsAs(programs[i], asker.value.name)))
  }

  ghost predicate Governs(rule: Rule, name: string, asker: Option<Asker>) {
    IsAbout(rule.matcher, name) && IsFor(rule.programs, asker)
  }

  lemma {:induction false} TrimmedIs(s: string)
    ensures var t := TrimDots(s);
            && t <= s && (t != [] ==> t[|t| - 1] != '.') && forall i :: |t| <= i < |s| ==> s[i] == '.'
  {
    if s != [] && s[|s| - 1] == '.' {
      TrimmedIs(s[..|s| - 1]);
    }
  }

  /** A name is read in one way only, and that is how it is filed. */
  lemma NormaliseIsExact(written: string, read: string)
    ensures Normalise(written) == read <==> ReadsAs(written, read)
  {
    TrimmedIs(written);
    var t := TrimDots(written);
    if ReadsAs(written, read) {
      assert read != [] ==> LowerOf(written[|read| - 1], read[|read| - 1]);
      OneEnd(written, |t|, |read|);
    }
  }

  lemma OneEnd(s: string, m: nat, n: nat)
    requires m <= |s| && n <= |s| && (m > 0 ==> s[m - 1] != '.') && (n > 0 ==> s[n - 1] != '.')
    requires forall i :: m <= i < |s| ==> s[i] == '.'
    requires forall i :: n <= i < |s| ==> s[i] == '.'
    ensures m == n
  {
  }

  lemma ProgramIsExact(written: string, read: string)
    ensures NormaliseProgram(written) == read <==> ProgramReadsAs(written, read)
  {
    if ProgramReadsAs(written, read) {
      forall i | 0 <= i < |read|
        ensures NormaliseProgram(written)[i] == read[i]
      {
        assert Lower(written)[i] == LowerChar(written[i]);
      }
    }
  }

  lemma MatcherIsRead(m: Match, normal: Match, name: string)
    requires normal == match m
                       case Exact(w) => Exact(Normalise(w))
                       case Suffix(w) => Suffix(Normalise(w))
                       case Any => Any
    ensures Matches(normal, name) <==> IsAbout(m, name)
  {
    hide Normalise, ReadsAs, Matches;
    match m
    case Any =>
      MatchesAny(name);
    case Exact(w) =>
      NormaliseIsExact(w, name);
      MatchesExact(normal.name, name);
    case Suffix(w) =>
      SuffixMatchesAtLabel(name, normal.name);
      NormaliseIsExact(w, name);
      assert name[0..] == name;
      if Matches(normal, name) && normal.name != name {
        var at := |name| - |normal.name| - 1;
        NormaliseIsExact(w, name[at + 1..]);
        assert name[at] == '.' && name[at + 1..] == normal.name;
      }
      if IsAbout(m, name) && !ReadsAs(w, name) {
        var at :| 0 <= at < |name| && name[at] == '.' && ReadsAs(w, name[at + 1..]);
        NormaliseIsExact(w, name[at + 1..]);
      }
  }

  lemma MatchesAny(name: string)
    ensures Matches(Any, name)
  {
  }

  lemma MatchesExact(n: string, name: string)
    ensures Matches(Exact(n), name) <==> name == n
  {
  }

  lemma ProgramsAreRead(rule: Rule, asker: Option<Asker>)
    ensures AppliesTo(NormaliseRule(rule).programs, asker) <==> IsFor(rule.programs, asker)
  {
    hide NormaliseProgram, ProgramReadsAs;
    var read := NormaliseRule(rule).programs;
    if asker.Some? {
      forall i | 0 <= i < |read|
        ensures read[i] == asker.value.path <==> ProgramReadsAs(rule.programs[i], asker.value.path)
        ensures read[i] == asker.value.name <==> ProgramReadsAs(rule.programs[i], asker.value.name)
      {
        ProgramIsExact(rule.programs[i], asker.value.path);
        ProgramIsExact(rule.programs[i], asker.value.name);
      }
    }
  }

  /** A rule as it is filed admits exactly what the rule as written governs. */
  lemma RuleIsRead(rule: Rule, name: string, asker: Option<Asker>)
    ensures Admits(NormaliseRule(rule), name, asker) <==> Governs(rule, name, asker)
  {
    hide Matches, AppliesTo, IsAbout, IsFor, Normalise;
    MatcherIsRead(rule.matcher, NormaliseRule(rule).matcher, name);
    ProgramsAreRead(rule, asker);
  }

  lemma RulesAreRead(p: Policy, resolvers: seq<Resolver>, rules: seq<Rule>, name: string, asker: Option<Asker>)
    requires Built(p, resolvers, rules)
    ensures |p.rules| == |rules|
    ensures forall k :: 0 <= k < |rules| ==>
              && (Admits(p.rules[k], name, asker) <==> Governs(rules[k], name, asker))
              && p.rules[k].route == rules[k].route && p.rules[k].resolver == rules[k].resolver
  {
    hide Admits, Governs, Indexed;
    forall k | 0 <= k < |rules|
      ensures Admits(p.rules[k], name, asker) <==> Governs(rules[k], name, asker)
    {
      RuleIsRead(rules[k], name, asker);
    }
  }

  /** In a policy as built, no name holds an upper-case letter or ends in a dot, each is what was written
      up to case and the dots at its end, and so with programs, case and slashes. */
  lemma BuiltAsWritten(p: Policy, resolvers: seq<Resolver>, rules: seq<Rule>, i: nat)
    requires Built(p, resolvers, rules) && i < |rules|
    ensures |p.rules| == |rules|
    ensures var filed, rule := p.rules[i], rules[i];
            && filed.resolver == rule.resolver && filed.route == rule.route
            && (filed.matcher.Any? <==> rule.matcher.Any?) && (filed.matcher.Exact? <==> rule.matcher.Exact?)
            && (!rule.matcher.Any? ==>
                  && ReadsAs(rule.matcher.name, filed.matcher.name) && filed.matcher.name != ""
                  && forall k :: 0 <= k < |filed.matcher.name| ==> !('A' <= filed.matcher.name[k] <= 'Z'))
            && |filed.programs| == |rule.programs|
            && forall k :: 0 <= k < |rule.programs| ==> ProgramReadsAs(rule.programs[k], filed.programs[k])
  {
    hide Normalise, NormaliseProgram, ProgramReadsAs, Indexed;
    var filed, rule := p.rules[i], rules[i];
    if !rule.matcher.Any? {
      NormaliseIsExact(rule.matcher.name, filed.matcher.name);
    }
    forall k | 0 <= k < |rule.programs|
      ensures ProgramReadsAs(rule.programs[k], filed.programs[k])
    {
      ProgramIsExact(rule.programs[k], filed.programs[k]);
    }
  }

  /** Two ways of writing one rule: the same but for case, dots at the end of the name, and slashes. */
  ghost predicate ReadAlike(a: Rule, b: Rule) {
    && a.resolver == b.resolver && a.route == b.route
    && (match (a.matcher, b.matcher)
        case (Exact(v), Exact(w)) => exists read :: ReadsAs(v, read) && ReadsAs(w, read)
        case (Suffix(v), Suffix(w)) => exists read :: ReadsAs(v, read) && ReadsAs(w, read)
        case (Any, Any) => true
        case _ => false)
    && |a.programs| == |b.programs|
    && forall k :: 0 <= k < |a.programs| ==>
                     exists read :: ProgramReadsAs(a.programs[k], read) && ProgramReadsAs(b.programs[k], read)
  }

  /** However they are written, rules that read alike make the same policy. */
  lemma WritingDoesNotMatter(p: Policy, q: Policy, resolvers: seq<Resolver>, a: seq<Rule>, b: seq<Rule>)
    requires Built(p, resolvers, a) && Built(q, resolvers, b)
    requires |a| == |b| && forall i :: 0 <= i < |a| ==> ReadAlike(a[i], b[i])
    ensures p.rules == q.rules
  {
    hide NormaliseRule, ReadAlike, Indexed;
    forall i | 0 <= i < |a|
      ensures NormaliseRule(a[i]) == NormaliseRule(b[i])
    {
      RulesReadAlike(a[i], b[i]);
    }
  }

  lemma RulesReadAlike(a: Rule, b: Rule)
    requires ReadAlike(a, b)
    ensures NormaliseRule(a) == NormaliseRule(b)
  {
    hide Normalise, NormaliseProgram, ReadsAs, ProgramReadsAs;
    if !a.matcher.Any? {
      var read :| ReadsAs(a.matcher.name, read) && ReadsAs(b.matcher.name, read);
      NormaliseIsExact(a.matcher.name, read);
      NormaliseIsExact(b.matcher.name, read);
    }
    forall k | 0 <= k < |a.programs|
      ensures NormaliseProgram(a.programs[k]) == NormaliseProgram(b.programs[k])
    {
      var read :| ProgramReadsAs(a.programs[k], read) && ProgramReadsAs(b.programs[k], read);
      ProgramIsExact(a.programs[k], read);
      ProgramIsExact(b.programs[k], read);
    }
    assert NormaliseRule(a).programs == NormaliseRule(b).programs;
  }

  // ----- what is wrong, as it was written -----

  ghost predicate BadResolver(resolvers: seq<Resolver>, i: nat)
    requires i < |resolvers|
  {
    (resolvers[i].kind == Doh && resolvers[i].url.None?) || exists j :: 0 <= j < i && resolvers[j].id == resolvers[i].id
  }

  ghost predicate BadRule(resolvers: seq<Resolver>, rule: Rule) {
    || (forall j :: 0 <= j < |resolvers| ==> resolvers[j].id != rule.resolver)
    || (!rule.matcher.Any? && forall i :: 0 <= i < |rule.matcher.name| ==> rule.matcher.name[i] == '.')
  }

  lemma {:induction false} ResolverFaultIsFirst(resolvers: seq<Resolver>, n: nat)
    requires n <= |resolvers|
    ensures ResolverFault(resolvers, n).None? <==> forall i: nat :: i < n ==> !BadResolver(resolvers, i)
    ensures ResolverFault(resolvers, n).Some? ==>
              exists i: nat :: i < n && IsFirstBad(resolvers, i) &&
                               ResolverFault(resolvers, n).value == FaultOf(resolvers[i])
  {
    if n > 0 {
      ResolverFaultIsFirst(resolvers, n - 1);
      if ResolverFault(resolvers, n - 1).None? && ResolverFault(resolvers, n).Some? {
        assert IsFirstBad(resolvers, n - 1);
      }
    }
  }

  ghost predicate IsFirstBad(resolvers: seq<Resolver>, i: nat)
    requires i < |resolvers|
  {
    BadResolver(resolvers, i) && forall j: nat :: j < i ==> !BadResolver(resolvers, j)
  }

  function FaultOf(r: Resolver): PolicyError {
    if r.kind == Doh && r.url.None? then MissingUrl(r.id) else DuplicateResolver(r.id)
  }

  lemma EmptyMeansDots(name: string)
    ensures Normalise(name) == "" <==> forall i :: 0 <= i < |name| ==> name[i] == '.'
  {
    NormaliseIsExact(name, "");
  }

  ghost predicate IsFirstBadRule(resolvers: seq<Resolver>, rules: seq<Rule>, i: nat)
    requires i < |rules|
  {
    BadRule(resolvers, rules[i]) && forall j: nat :: j < i ==> !BadRule(resolvers, rules[j])
  }

  function RuleFaultOf(resolvers: seq<Resolver>, rule: Rule, i: nat): PolicyError {
    if forall j :: 0 <= j < |resolvers| ==> resolvers[j].id != rule.resolver then UnknownResolver(i, rule.resolver)
    else EmptyMatch(i)
  }

  lemma {:induction false} RuleFaultIsFirst(resolvers: seq<Resolver>, rules: seq<Rule>, n: nat)
    requires n <= |rules|
    ensures RuleFault(resolvers, rules, n).None? <==> forall i: nat :: i < n ==> !BadRule(resolvers, rules[i])
    ensures RuleFault(resolvers, rules, n).Some? ==>
              exists i: nat :: i < n && IsFirstBadRule(resolvers, rules, i) &&
                               RuleFault(resolvers, rules, n).value == RuleFaultOf(resolvers, rules[i], i)
  {
    if n > 0 {
      hide Normalise;
      RuleFaultIsFirst(resolvers, rules, n - 1);
      var rule := rules[n - 1];
      if !rule.matcher.Any? {
        EmptyMeansDots(rule.matcher.name);
      }
      if RuleFault(resolvers, rules, n - 1).None? && RuleFault(resolvers, rules, n).Some? {
        assert IsFirstBadRule(resolvers, rules, n - 1);
      }
    }
  }

  /** A policy is refused exactly when a resolver has no endpoint it needs or the name of one before, or a
      rule names a resolver nobody declared or matches nothing but dots; and for the first of these, resolvers
      before rules. */
  lemma FaultIsFirst(resolvers: seq<Resolver>, rules: seq<Rule>)
    ensures var fault := Fault(resolvers, rules);
            && (fault.None? <==> (forall i: nat :: i < |resolvers| ==> !BadResolver(resolvers, i)) &&
                                 (forall i: nat :: i < |rules| ==> !BadRule(resolvers, rules[i])))
            && (fault.Some? ==>
                  || (exists i: nat :: i < |resolvers| && IsFirstBad(resolvers, i) &&
                                       fault.value == FaultOf(resolvers[i]))
                  || ((forall i: nat :: i < |resolvers| ==> !BadResolver(resolvers, i)) &&
                      exists i: nat :: i < |rules| && IsFirstBadRule(resolvers, rules, i) &&
                                       fault.value == RuleFaultOf(resolvers, rules[i], i)))
  {
    hide BadResolver, BadRule, IsFirstBad, IsFirstBadRule, FaultOf, RuleFaultOf;
    ResolverFaultIsFirst(resolvers, |resolvers|);
    RuleFaultIsFirst(resolvers, rules, |rules|);
  }

  // ----- the lookup -----

  /** Where the labels of a name start: at its beginning, and after each dot. */
  predicate LabelStart(name: string, at: nat) {
    at == 0 || (at <= |name| && name[at - 1] == '.')
  }

  lemma SuffixMatchesAtLabel(name: string, n: string)
    ensures Matches(Suffix(n), name) <==>
              |n| <= |name| && LabelStart(name, |name| - |n|) && name[|name| - |n|..] == n
  {
    if |n| < |name| {
      var at := |name| - |n|;
      assert name[at - 1..] == [name[at - 1]] + name[at..];
    } else if |n| == |name| {
      assert name[0..] == name;
    }
  }

  method FirstDot(s: string) returns (at: nat)
    ensures at <= |s| && (at < |s| ==> s[at] == '.') && '.' !in s[..at]
  {
    at := 0;
    while at < |s| && s[at] != '.'
      invariant 0 <= at <= |s| && '.' !in s[..at]
    {
      at := at + 1;
    }
  }

  /** Every rule that could match the name, by hash lookups on the name and on what follows each of
      its dots. */
  method Candidates(p: Policy, name: string) returns (candidates: seq<nat>)
    requires Indexed(p.exact, p.suffix, p.any, p.rules, |p.rules|)
    requires forall i :: 0 <= i < |p.rules| ==> p.rules[i].matcher.Any? || p.rules[i].matcher.name != ""
    ensures forall i: nat :: i in candidates <==> i < |p.rules| && Matches(p.rules[i].matcher, name)
  {
    hide Numbers, Matches, Indexed;
    LookupsSay(p);
    candidates := Lookup(p.exact, name);
    var at := 0;
    while true
      invariant at <= |name| && LabelStart(name, at)
      invariant forall i: nat :: i in candidates <==> Gathered(p, name, at, i)
      decreases |name| - at
    {
      var rest := name[at..];
      ghost var before := candidates;
      candidates := candidates + Lookup(p.suffix, rest);
      GatherHere(p, name, at, before, candidates);
      var dot := FirstDot(rest);
      NoLabelWithin(name, at, dot);
      if dot < |rest| && dot + 1 < |rest| {
        GatherOn(p, name, at, at + dot + 1);
        at := at + dot + 1;
      } else {
        GatherOn(p, name, at, |name| + 1);
        break;
      }
    }
    candidates := candidates + p.any;
    forall i: nat
      ensures i in candidates <==> i < |p.rules| && Matches(p.rules[i].matcher, name)
    {
      if i < |p.rules| {
        GatheredMatches(p, name, i);
      }
    }
  }

  /** No label starts before the first dot. */
  lemma NoLabelWithin(name: string, at: nat, dot: nat)
    requires at <= |name| && dot <= |name| - at && '.' !in name[at..][..dot]
    ensures forall k: nat :: at < k <= at + dot ==> !LabelStart(name, k)
  {
    forall k: nat | at < k <= at + dot
      ensures !LabelStart(name, k)
    {
      assert name[at..][..dot][k - 1 - at] == name[k - 1];
    }
  }

  lemma LookupsSay(p: Policy)
    requires Indexed(p.exact, p.suffix, p.any, p.rules, |p.rules|)
    ensures forall name :: forall i: nat ::
              i in Lookup(p.exact, name) <==> i < |p.rules| && p.rules[i].matcher == Exact(name)
    ensures forall name :: forall i: nat ::
              i in Lookup(p.suffix, name) <==> i < |p.rules| && p.rules[i].matcher == Suffix(name)
    ensures forall i: nat :: i in p.any <==> i < |p.rules| && p.rules[i].matcher == Any
  {
  }

  /** Rule `i` is exact for the name, or a suffix rule for what starts at a label before `at`. */
  ghost predicate Gathered(p: Policy, name: string, at: nat, i: nat) {
    i < |p.rules| &&
    match p.rules[i].matcher
    case Exact(n) => n == name
    case Suffix(n) => exists k :: 0 <= k < at && k <= |name| && LabelStart(name, k) && name[k..] == n
    case Any => false
  }

  /** The suffix rules for what starts at `at` are gathered too. */
  lemma GatherHere(p: Policy, name: string, at: nat, before: seq<nat>, after: seq<nat>)
    requires at <= |name| && LabelStart(name, at)
    requires forall i: nat :: i in before <==> Gathered(p, name, at, i)
    requires after == before + Lookup(p.suffix, name[at..])
    requires forall i: nat ::
               i in Lookup(p.suffix, name[at..]) <==> i < |p.rules| && p.rules[i].matcher == Suffix(name[at..])
    ensures forall i: nat :: i in after <==> Gathered(p, name, at + 1, i)
  {
  }

  /** Between one label and the next start no others; past the last, only the empty name, which no
      rule has. */
  lemma GatherOn(p: Policy, name: string, at: nat, next: nat)
    requires at < next <= |name| + 1
    requires forall i :: 0 <= i < |p.rules| ==> p.rules[i].matcher.Any? || p.rules[i].matcher.name != ""
    requires forall k: nat :: at < k < next && k < |name| ==> !LabelStart(name, k)
    ensures forall i: nat :: Gathered(p, name, at + 1, i) <==> Gathered(p, name, next, i)
  {
    forall i: nat
      ensures Gathered(p, name, at + 1, i) <==> Gathered(p, name, next, i)
    {
      if Gathered(p, name, next, i) && p.rules[i].matcher.Suffix? {
        var n := p.rules[i].matcher.name;
        var k :| 0 <= k < next && k <= |name| && LabelStart(name, k) && name[k..] == n;
        assert k < |name|;
      }
    }
  }

  lemma GatheredMatches(p: Policy, name: string, i: nat)
    requires i < |p.rules|
    ensures Gathered(p, name, |name| + 1, i) || p.rules[i].matcher.Any? <==> Matches(p.rules[i].matcher, name)
  {
    match p.rules[i].matcher
    case Exact(n) =>
    case Any =>
    case Suffix(n) =>
      SuffixMatchesAtLabel(name, n);
      if Gathered(p, name, |name| + 1, i) {
        var k :| 0 <= k < |name| + 1 && k <= |name| && LabelStart(name, k) && name[k..] == n;
        assert k == |name| - |n|;
      }
  }

  // ----- sorting and choosing -----

  ghost predicate Sorted(s: seq<nat>) {
    forall i, j :: 0 <= i < j < |s| ==> s[i] <= s[j]
  }

  method Insert(s: seq<nat>, x: nat) returns (r: seq<nat>)
    requires Sorted(s)
    ensures Sorted(r) && multiset(r) == multiset(s) + multiset{x}
  {
    var at := |s|;
    while at > 0 && s[at - 1] > x
      invariant 0 <= at <= |s|
      invariant forall k :: at <= k < |s| ==> s[k] > x
    {
      at := at - 1;
    }
    SortedWith(s, x, at);
    r := s[..at] + [x] + s[at..];
  }

  lemma SortedWith(s: seq<nat>, x: nat, at: nat)
    requires Sorted(s) && at <= |s| && (at > 0 ==> s[at - 1] <= x)
    requires forall k :: at <= k < |s| ==> s[k] > x
    ensures Sorted(s[..at] + [x] + s[at..])
    ensures multiset(s[..at] + [x] + s[at..]) == multiset(s) + multiset{x}
  {
    MembersWith(s, x, at);
    var r := s[..at] + [x] + s[at..];
    forall i, j | 0 <= i < j < |r|
      ensures r[i] <= r[j]
    {
      assert i < at ==> r[i] == s[i];
      assert i > at ==> r[i] == s[i - 1];
      assert j < at ==> r[j] == s[j];
      assert j > at ==> r[j] == s[j - 1];
    }
  }

  lemma MembersWith(s: seq<nat>, x: nat, at: nat)
    requires at <= |s|
    ensures multiset(s[..at] + [x] + s[at..]) == multiset(s) + multiset{x}
  {
    assert s == s[..at] + s[at..];
  }

  method Sort(s: seq<nat>) returns (r: seq<nat>)
    ensures Sorted(r) && multiset(r) == multiset(s)
  {
    hide Sorted;
    r := NothingSorted();
    var i := 0;
    while i < |s|
      invariant 0 <= i <= |s|
      invariant Sorted(r) && multiset(r) == multiset(s[..i])
    {
      assert s[..i + 1] == s[..i] + [s[i]];
      r := Insert(r, s[i]);
      i := i + 1;
    }
    assert s[..i] == s;
  }

  method NothingSorted() returns (r: seq<nat>)
    ensures r == [] && Sorted(r)
  {
    r := [];
  }

  /** Decide a name for an asker, with the result of trying the rules one after another. */
  method Decide(p: Policy, ghost resolvers: seq<Resolver>, ghost rules: seq<Rule>, name: string, asker: Option<Asker>)
    returns (r: Option<Decision>)
    requires Built(p, resolvers, rules)
    ensures r.Some? <==> FirstMatch(p.rules, name, asker, 0).Some?
    ensures r.Some? ==> Some(r.value.rule) == FirstMatch(p.rules, name, asker, 0)
    ensures r.None? ==> forall k :: 0 <= k < |rules| ==> !Governs(rules[k], name, asker)
    ensures r.Some? ==>
              && r.value.rule < |rules| && Governs(rules[r.value.rule], name, asker)
              && (forall k :: 0 <= k < r.value.rule ==> !Governs(rules[k], name, asker))
              && r.value.route == rules[r.value.rule].route
              && r.value.resolver in resolvers && r.value.resolver.id == rules[r.value.rule].resolver
  {
    hide FirstMatch, Indexed, Matches, Governs, AppliesTo, NormaliseRule;
    RulesAreRead(p, resolvers, rules, name, asker);
    var candidates := Candidates(p, name);
    var sorted := Sort(candidates);
    SameMembers(candidates, sorted);
    var i := 0;
    while i < |sorted|
      invariant 0 <= i <= |sorted|
      invariant forall n: nat :: n in sorted[..i] ==> n < |p.rules| && !AppliesTo(p.rules[n].programs, asker)
    {
      var n := sorted[i];
      assert n in sorted;
      if AppliesTo(p.rules[n].programs, asker) {
        forall k | 0 <= k < n
          ensures !Admits(p.rules[k], name, asker)
        {
          if Matches(p.rules[k].matcher, name) {
            SmallerIsBefore(sorted, i, k);
          }
        }
        LeastIsFirst(p.rules, name, asker, 0, n);
        var rule := p.rules[n];
        return Some(Decision(p.resolvers[rule.resolver], rule.route, n));
      }
      i := i + 1;
    }
    forall k | 0 <= k < |p.rules|
      ensures !Admits(p.rules[k], name, asker)
    {
      if Matches(p.rules[k].matcher, name) {
        assert k in sorted;
      }
    }
    NoneIsFirst(p.rules, name, asker, 0);
    return None;
  }

  lemma SmallerIsBefore(s: seq<nat>, i: nat, k: nat)
    requires Sorted(s) && i < |s| && k in s && k < s[i]
    ensures k in s[..i]
  {
    var j :| 0 <= j < |s| && s[j] == k;
    assert j < i;
    assert s[..i][j] == k;
  }

  lemma SameMembers(s: seq<nat>, r: seq<nat>)
    requires multiset(s) == multiset(r)
    ensures forall i :: i in s <==> i in r
  {
    forall i
      ensures i in s <==> i in r
    {
      assert i in s <==> i in multiset(s);
      assert i in r <==> i in multiset(r);
    }
  }

  lemma {:induction false} LeastIsFirst(rules: seq<Rule>, name: string, asker: Option<Asker>, i: nat, n: nat)
    requires i <= n < |rules| && Admits(rules[n], name, asker)
    requires forall k :: i <= k < n ==> !Admits(rules[k], name, asker)
    ensures FirstMatch(rules, name, asker, i) == Some(n)
    decreases n - i
  {
    if i < n {
      LeastIsFirst(rules, name, asker, i + 1, n);
    }
  }

  lemma {:induction false} NoneIsFirst(rules: seq<Rule>, name: string, asker: Option<Asker>, i: nat)
    requires i <= |rules| && forall k :: i <= k < |rules| ==> !Admits(rules[k], name, asker)
    ensures FirstMatch(rules, name, asker, i) == None
    decreases |rules| - i
  {
    if i < |rules| {
      NoneIsFirst(rules, name, asker, i + 1);
    }
  }

  // ----- covering every name -----

  /** Some rule matches any name for any program. */
  ghost predicate HasCatchAll(rules: seq<Rule>) {
    exists i :: 0 <= i < |rules| && rules[i].matcher.Any? && rules[i].programs == []
  }

  method DecidesEverything(p: Policy, ghost resolvers: seq<Resolver>, ghost rules: seq<Rule>) returns (r: bool)
    requires Built(p, resolvers, rules)
    ensures r <==> HasCatchAll(p.rules)
  {
    hide FirstMatch;
    LookupsSay(p);
    var k := 0;
    while k < |p.any|
      invariant 0 <= k <= |p.any|
      invariant forall i: nat :: i in p.any[..k] ==> i < |p.rules| && p.rules[i].programs != []
    {
      assert p.any[k] in p.any;
      if p.rules[p.any[k]].programs == [] {
        return true;
      }
      assert p.any[..k + 1] == p.any[..k] + [p.any[k]];
      k := k + 1;
    }
    forall i | 0 <= i < |p.rules| && p.rules[i].matcher.Any?
      ensures p.rules[i].programs != []
    {
      assert i in p.any;
    }
    return false;
  }

  function Letters(n: nat): (s: string)
    ensures |s| == n && '.' !in s
  {
    seq(n, _ => 'x')
  }

  /** A length longer than every name the rules match. */
  function LongerThanAll(rules: seq<Rule>): (n: nat)
    ensures forall i :: 0 <= i < |rules| && !rules[i].matcher.Any? ==> |rules[i].matcher.name| < n
  {
    if rules == [] then 1
    else
      var rest := LongerThanAll(rules[..|rules| - 1]);
      var last := rules[|rules| - 1].matcher;
      if last.Any? || |last.name| < rest then rest else |last.name| + 1
  }

  /** A policy decides every name for every asker exactly when it has an unconditional catch-all. */
  lemma EverythingMeansCatchAll(rules: seq<Rule>)
    ensures HasCatchAll(rules) <==>
              forall name: string, asker: Option<Asker> :: FirstMatch(rules, name, asker, 0).Some?
  {
    if HasCatchAll(rules) {
      var i :| 0 <= i < |rules| && rules[i].matcher.Any? && rules[i].programs == [];
      forall name: string, asker: Option<Asker>
        ensures FirstMatch(rules, name, asker, 0).Some?
      {
        assert Admits(rules[i], name, asker);
      }
    } else {
      var name := Letters(LongerThanAll(rules));
      forall k | 0 <= k < |rules|
        ensures !Admits(rules[k], name, None)
      {
        if rules[k].matcher.Suffix? {
          SuffixMatchesAtLabel(name, rules[k].matcher.name);
        }
      }
      NoneIsFirst(rules, name, None, 0);
    }
  }

  /** One question tells: a policy in use decides every name for every asker exactly when it decides the
      root name for a program that is not known. No rule but a catch-all is about the root, as none has
      an empty name. */
  lemma TheRootTellsAll(p: Policy, resolvers: seq<Resolver>, rules: seq<Rule>)
    requires Built(p, resolvers, rules)
    ensures FirstMatch(p.rules, "", None, 0).Some? <==>
            forall name: string, asker: Option<Asker> :: FirstMatch(p.rules, name, asker, 0).Some?
    ensures FirstMatch(p.rules, "", None, 0).Some? <==> HasCatchAll(p.rules)
  {
    hide FirstMatch;
    EverythingMeansCatchAll(p.rules);
    if !HasCatchAll(p.rules) {
      forall k | 0 <= k < |p.rules|
        ensures !Admits(p.rules[k], "", None)
      {
        if p.rules[k].matcher.Suffix? {
          SuffixMatchesAtLabel("", p.rules[k].matcher.name);
        }
      }
      NoneIsFirst(p.rules, "", None, 0);
    }
  }
}
