/** The call policy (callpolicy.cpp): patterns, the ordered evaluation of the rules with its owner
    memo. The built-in denylist is a parameter. */
module CallPolicy {
  import opened Wrappers
  import opened Glob

  datatype Target = Target(bus: string, service: string, path: string, interface: string, method_: string)
  datatype Decision = Decision(allowed: bool, rule: string)
  datatype Pattern = Pattern(text: string, service: string, interface: string, method_: string)
  datatype Options = Options(allowSystemBus: bool, allowUniqueNames: bool, defaultDeny: bool,
                             deny: seq<string>, allow: seq<string>)

  /** The owner of a bus name, "" when it has none; a bus that is not asked is `None`. */
  type Lookup = Option<string -> string>

  // ------------------------------------------------------------ patterns

  /** QString::lastIndexOf: -1 when `c` does not occur. */
  function LastIndexOf(s: string, c: char): (i: int)
    ensures -1 <= i < |s|
    ensures i >= 0 ==> s[i] == c
    ensures forall k | i < k < |s| :: s[k] != c
  {
    if s == "" then -1 else if s[|s| - 1] == c then |s| - 1 else LastIndexOf(s[..|s| - 1], c)
  }

  /** A text is cut at its rightmost colon and its rightmost dot, and every piece must hold something. */
  function ParsePattern(text: string): Option<Pattern> {
    var colon, dot := LastIndexOf(text, ':'), LastIndexOf(text, '.');
    if colon <= 0 || dot <= colon + 1 || dot == |text| - 1 then None
    else Some(Pattern(text, text[..colon], text[colon + 1..dot], text[dot + 1..]))
  }

  ghost predicate Spells(text: string, p: Pattern) {
    && p.text == text == p.service + ":" + p.interface + "." + p.method_
    && p.service != "" && p.interface != "" && p.method_ != ""
    && ':' !in p.interface && ':' !in p.method_ && '.' !in p.method_
  }

  lemma ParsedSpells(text: string)
    requires ParsePattern(text).Some?
    ensures Spells(text, ParsePattern(text).value)
  {
    var colon, dot := LastIndexOf(text, ':'), LastIndexOf(text, '.');
    assert text == text[..colon] + ":" + text[colon + 1..dot] + "." + text[dot + 1..];
  }

  lemma CutPoints(text: string, p: Pattern)
    requires Spells(text, p)
    ensures LastIndexOf(text, ':') == |p.service|
    ensures LastIndexOf(text, '.') == |p.service| + 1 + |p.interface|
    ensures text[..|p.service|] == p.service
    ensures text[|p.service| + 1..|p.service| + 1 + |p.interface|] == p.interface
    ensures text[|p.service| + 2 + |p.interface|..] == p.method_
  {
    hide LastIndexOf;
    var c, d := |p.service|, |p.service| + 1 + |p.interface|;
    assert text[c] == ':' && text[d] == '.';
    forall k | c < k < |text| ensures text[k] != ':' {
      if k < d { assert text[k] == p.interface[k - c - 1]; } else if k > d { assert text[k] == p.method_[k - d - 1]; }
    }
    forall k | d < k < |text| ensures text[k] != '.' { assert text[k] == p.method_[k - d - 1]; }
  }

  /** A text is a pattern exactly when it can be cut that way, and the cut is unique. */
  lemma ParsePatternExact(text: string, p: Pattern)
    ensures ParsePattern(text) == Some(p) <==> Spells(text, p)
  {
    if ParsePattern(text) == Some(p) { ParsedSpells(text); }
    if Spells(text, p) {
      CutPoints(text, p);
      hide LastIndexOf, Spells;
    }
  }

  // ------------------------------------------------------------ what a rule matches

  predicate HasStar(s: string) {
    exists i | 0 <= i < |s| :: s[i] == '*'
  }

  /** `unknownMatches` is set for refusals: they fit a call of no known interface in any case, an
      allowance only if it is for all interfaces. Given `owner`, two names that one connection owns
      count as one where the rule writes its service out in full. */
  ghost predicate RuleMatches(p: Pattern, target: Target, unknownMatches: bool, owner: Lookup) {
    && InLanguage(p.method_, target.method_)
    && (if target.interface == "" then unknownMatches || p.interface == "*"
        else InLanguage(p.interface, target.interface))
    && (|| InLanguage(p.service, target.service)
        || (&& owner.Some? && !HasStar(p.service) && owner.value(target.service) != ""
            && owner.value(target.service) == owner.value(p.service)))
  }

  ghost function FirstMatch(ps: seq<Pattern>, target: Target, unknownMatches: bool, owner: Lookup): Option<Pattern> {
    if ps == [] then None
    else if RuleMatches(ps[0], target, unknownMatches, owner) then Some(ps[0])
    else FirstMatch(ps[1..], target, unknownMatches, owner)
  }

  /** The rules of a configured policy. */
  datatype Rules = Rules(allowSystemBus: bool, allowUniqueNames: bool, defaultDeny: bool,
                         deny: seq<Pattern>, allow: seq<Pattern>, builtin: seq<Pattern>)

  predicate IsUnique(service: string) {
    service != "" && service[0] == ':'
  }

  /** The switches first, then the three lists, the configured ones before the fixed one; a call no
      rule is about falls to `defaultDeny`. */
  ghost function Decide(r: Rules, target: Target, owner: Lookup): Decision {
    if target.bus == "system" && !r.allowSystemBus then Decision(false, "system-bus")
    else if IsUnique(target.service) && !r.allowUniqueNames then Decision(false, "unique-name")
    else
      var denied := FirstMatch(r.deny, target, true, owner);
      if denied.Some? then Decision(false, "deny:" + denied.value.text)
      else
        var allowed := FirstMatch(r.allow, target, false, None);
        if allowed.Some? then Decision(true, "allow:" + allowed.value.text)
        else
          var builtin := FirstMatch(r.builtin, target, true, owner);
          if builtin.Some? then Decision(false, "builtin:" + builtin.value.text)
          else if r.defaultDeny then Decision(false, "default-deny")
          else Decision(true, "")
  }

  ghost predicate AnyMatches(ps: seq<Pattern>, target: Target, unknownMatches: bool, owner: Lookup) {
    exists i | 0 <= i < |ps| :: RuleMatches(ps[i], target, unknownMatches, owner)
  }

  lemma {:induction false} FirstMatchExists(ps: seq<Pattern>, target: Target, unknownMatches: bool, owner: Lookup)
    ensures FirstMatch(ps, target, unknownMatches, owner).Some? <==> AnyMatches(ps, target, unknownMatches, owner)
    decreases ps
  {
    hide RuleMatches;
    if ps != [] {
      FirstMatchExists(ps[1..], target, unknownMatches, owner);
      if AnyMatches(ps[1..], target, unknownMatches, owner) {
        var i :| 0 <= i < |ps[1..]| && RuleMatches(ps[1..][i], target, unknownMatches, owner);
        assert RuleMatches(ps[i + 1], target, unknownMatches, owner);
      }
      if AnyMatches(ps, target, unknownMatches, owner) {
        var i :| 0 <= i < |ps| && RuleMatches(ps[i], target, unknownMatches, owner);
        if i > 0 { assert RuleMatches(ps[1..][i - 1], target, unknownMatches, owner); }
      }
    }
  }

  /** When a call is allowed, independently of the order in which the rules are tried. */
  lemma AllowedExactly(r: Rules, target: Target, owner: Lookup)
    ensures Decide(r, target, owner).allowed <==>
            && (target.bus == "system" ==> r.allowSystemBus)
            && (IsUnique(target.service) ==> r.allowUniqueNames)
            && !AnyMatches(r.deny, target, true, owner)
            && (|| AnyMatches(r.allow, target, false, None)
                || (!AnyMatches(r.builtin, target, true, owner) && !r.defaultDeny))
  {
    FirstMatchExists(r.deny, target, true, owner);
    FirstMatchExists(r.allow, target, false, None);
    FirstMatchExists(r.builtin, target, true, owner);
  }

  // ------------------------------------------------------------ main results

  /** The rule number `k` matches, and no earlier one of its list does. */
  ghost predicate IsFirst(ps: seq<Pattern>, k: int, target: Target, unknownMatches: bool, owner: Lookup) {
    && 0 <= k < |ps| && RuleMatches(ps[k], target, unknownMatches, owner)
    && forall j | 0 <= j < k :: !RuleMatches(ps[j], target, unknownMatches, owner)
  }

  lemma {:induction false} FirstMatchIs(ps: seq<Pattern>, target: Target, unknownMatches: bool, owner: Lookup)
    ensures forall k | IsFirst(ps, k, target, unknownMatches, owner) ::
              FirstMatch(ps, target, unknownMatches, owner) == Some(ps[k])
    ensures AnyMatches(ps, target, unknownMatches, owner) ==> exists k :: IsFirst(ps, k, target, unknownMatches, owner)
    decreases ps
  {
    hide RuleMatches;
    if ps != [] {
      var rest := ps[1..];
      FirstMatchIs(rest, target, unknownMatches, owner);
      if RuleMatches(ps[0], target, unknownMatches, owner) {
        assert IsFirst(ps, 0, target, unknownMatches, owner);
      } else {
        forall k | IsFirst(ps, k, target, unknownMatches, owner)
          ensures FirstMatch(ps, target, unknownMatches, owner) == Some(ps[k])
        {
          assert forall j | 0 <= j < k - 1 :: rest[j] == ps[j + 1];
          assert IsFirst(rest, k - 1, target, unknownMatches, owner);
        }
        if i :| 0 <= i < |ps| && RuleMatches(ps[i], target, unknownMatches, owner) {
          assert rest[i - 1] == ps[i];
          var k :| IsFirst(rest, k, target, unknownMatches, owner);
          assert forall j | 0 < j < k + 1 :: ps[j] == rest[j - 1];
          assert IsFirst(ps, k + 1, target, unknownMatches, owner);
        }
      }
    }
  }

  /** The decision names the rule it was taken by: a switch; or else the first matching rule of the first
      list that has one, the allowances being asked without owners; or the default. */
  lemma DecidedByFirst(r: Rules, target: Target, owner: Lookup)
    ensures var d := Decide(r, target, owner);
            if target.bus == "system" && !r.allowSystemBus then d == Decision(false, "system-bus")
            else if IsUnique(target.service) && !r.allowUniqueNames then d == Decision(false, "unique-name")
            else if AnyMatches(r.deny, target, true, owner) then
              exists k :: IsFirst(r.deny, k, target, true, owner) && d == Decision(false, "deny:" + r.deny[k].text)
            else if AnyMatches(r.allow, target, false, None) then
              exists k :: IsFirst(r.allow, k, target, false, None) && d == Decision(true, "allow:" + r.allow[k].text)
            else if AnyMatches(r.builtin, target, true, owner) then
              exists k :: IsFirst(r.builtin, k, target, true, owner) && d == Decision(false, "builtin:" + r.builtin[k].text)
            else d == if r.defaultDeny then Decision(false, "default-deny") else Decision(true, "")
  {
    FirstMatchExists(r.deny, target, true, owner);
    FirstMatchExists(r.allow, target, false, None);
    FirstMatchExists(r.builtin, target, true, owner);
    FirstMatchIs(r.deny, target, true, owner);
    FirstMatchIs(r.allow, target, false, None);
    FirstMatchIs(r.builtin, target, true, owner);
    hide AnyMatches, IsFirst, FirstMatch;
  }

  /** What is allowed with an unknown interface is allowed with every interface. */
  lemma UnknownCoversAll(r: Rules, target: Target, interface: string, owner: Lookup)
    requires target.interface == "" && Decide(r, target, owner).allowed
    ensures Decide(r, target.(interface := interface), owner).allowed
  {
    var known := target.(interface := interface);
    AllowedExactly(r, target, owner);
    AllowedExactly(r, known, owner);
    RefusalCovers(r.deny, target, interface, owner);
    RefusalCovers(r.builtin, target, interface, owner);
    AllowanceCovers(r.allow, target, interface);
  }

  lemma RefusalCovers(ps: seq<Pattern>, target: Target, interface: string, owner: Lookup)
    requires target.interface == ""
    ensures AnyMatches(ps, target.(interface := interface), true, owner) ==> AnyMatches(ps, target, true, owner)
  {
    var known := target.(interface := interface);
    if i :| 0 <= i < |ps| && RuleMatches(ps[i], known, true, owner) {
      assert RuleMatches(ps[i], target, true, owner);
    }
  }

  lemma AllowanceCovers(ps: seq<Pattern>, target: Target, interface: string)
    requires target.interface == ""
    ensures AnyMatches(ps, target, false, None) ==> AnyMatches(ps, target.(interface := interface), false, None)
  {
    var known := target.(interface := interface);
    StarMatchesAll(interface);
    if i :| 0 <= i < |ps| && RuleMatches(ps[i], target, false, None) {
      assert RuleMatches(ps[i], known, false, None);
    }
  }

  /** A refusing rule on a literal service cannot be dodged with another name of the connection. */
  lemma SameConnectionSameRefusal(p: Pattern, target: Target, other: string, owner: Lookup)
    requires owner.Some? && !HasStar(p.service)
    requires owner.value(target.service) == owner.value(other) != ""
    ensures RuleMatches(p, target, true, owner) == RuleMatches(p, target.(service := other), true, owner)
  {
    LiteralPattern(p.service, target.service);
    LiteralPattern(p.service, other);
  }

  /** A rule written out in full is about its own method, interface and service, or another name of the
      connection that owns the service. */
  lemma LiteralRule(p: Pattern, target: Target, unknownMatches: bool, owner: Lookup)
    requires !HasStar(p.service) && !HasStar(p.interface) && !HasStar(p.method_)
    ensures RuleMatches(p, target, unknownMatches, owner) <==>
            && target.method_ == p.method_
            && (if target.interface == "" then unknownMatches else target.interface == p.interface)
            && (|| target.service == p.service
                || (owner.Some? && owner.value(target.service) == owner.value(p.service) != ""))
  {
    LiteralPattern(p.service, target.service);
    LiteralPattern(p.interface, target.interface);
    LiteralPattern(p.method_, target.method_);
    TheStar();
    hide InLanguage;
  }

  lemma TheStar()
    ensures HasStar("*")
  {
    assert "*"[0] == '*';
  }

  /** A rule whose service has a star asks for no owner; one whose other parts are stars matches what its
      service matches. */
  lemma StarRule(p: Pattern, target: Target, unknownMatches: bool, owner: Lookup)
    ensures HasStar(p.service) ==>
              RuleMatches(p, target, unknownMatches, owner) == RuleMatches(p, target, unknownMatches, None)
    ensures p.interface == "*" && p.method_ == "*" ==>
              (RuleMatches(p, target, unknownMatches, None) <==> InLanguage(p.service, target.service))
  {
    StarMatchesAll(target.interface);
    StarMatchesAll(target.method_);
    hide InLanguage;
  }

  /** So the refusing rules decide alike for every name of a connection, when their services have
      no star. */
  lemma {:induction false} SameConnectionSameRules(ps: seq<Pattern>, target: Target, other: string, owner: Lookup)
    requires owner.Some? && owner.value(target.service) == owner.value(other) != ""
    requires forall i | 0 <= i < |ps| :: !HasStar(ps[i].service)
    ensures FirstMatch(ps, target, true, owner) == FirstMatch(ps, target.(service := other), true, owner)
  {
    if ps != [] {
      SameConnectionSameRefusal(ps[0], target, other, owner);
      SameConnectionSameRules(ps[1..], target, other, owner);
    }
  }

  // ------------------------------------------------------------ the evaluation itself

  /** The bus that answers who owns a name; `calls` is the record of what it was asked. */
  class Bus {
    const owner: string -> string
    ghost var calls: seq<string>

    constructor (owner: string -> string)
      ensures this.owner == owner && calls == []
    {
      this.owner := owner;
      calls := [];
    }

    /** A name without owner gives the empty text. */
    method ServiceOwner(name: string) returns (unique: string)
      modifies this
      ensures unique == owner(name) && calls == old(calls) + [name]
    {
      unique := owner(name);
      calls := calls + [name];
    }
  }

  /** `f` gives the answers that were given. */
  ghost predicate Agrees(f: string -> string, owner: string -> string, asked: seq<string>) {
    forall name | name in asked :: f(name) == owner(name)
  }

  /** The memo of one evaluation: what was asked since it began, each name once, and the answers. */
  class OwnerMemo {
    var owners: map<string, string>
    const bus: Bus
    ghost const before: seq<string>
    ghost var asked: seq<string>

    ghost predicate Valid()
      reads this, bus
    {
      && bus.calls == before + asked
      && (forall name | name in owners :: owners[name] == bus.owner(name))
      && (forall name :: name in asked <==> name in owners)
      && (forall i, j | 0 <= i < j < |asked| :: asked[i] != asked[j])
    }

    constructor (bus: Bus)
      ensures Valid() && asked == [] && this.bus == bus && before == bus.calls
    {
      this.bus := bus;
      owners, asked, before := map[], [], bus.calls;
    }

    /** Asks the bus only for a name not asked before. */
    method Owner(name: string) returns (owner: string)
      requires Valid()
      modifies this, bus
      ensures Valid() && owner == bus.owner(name)
      ensures asked == if name in old(asked) then old(asked) else old(asked) + [name]
      ensures name in asked && old(asked) <= asked
    {
      if name in owners {
        return owners[name];
      }
      owner := bus.ServiceOwner(name);
      owners := owners[name := owner];
      asked := asked + [name];
    }
  }

  /** What an evaluation holds of its memo, if it has one. */
  ghost predicate Kept(memo: OwnerMemo?)
    reads memo, if memo == null then {} else {memo.bus}
  {
    memo != null ==> memo.Valid()
  }

  /** The decision of a rule, with the owners its memo gives; it hangs on nothing but the answers to
      the names asked by then. */
  method Matches(p: Pattern, target: Target, unknownMatches: bool, memo: OwnerMemo?) returns (matched: bool)
    requires Kept(memo)
    modifies memo, if memo == null then {} else {memo.bus}
    ensures Kept(memo)
    ensures memo == null ==> matched == RuleMatches(p, target, unknownMatches, None)
    ensures memo != null ==>
              && old(memo.asked) <= memo.asked
              && forall f | Agrees(f, memo.bus.owner, memo.asked) ::
                   matched == RuleMatches(p, target, unknownMatches, Some(f))
  {
    hide InLanguage;
    var m := GlobMatch(p.method_, target.method_);
    if !m {
      return false;
    }
    if target.interface == "" {
      if !unknownMatches && p.interface != "*" {
        return false;
      }
    } else {
      m := GlobMatch(p.interface, target.interface);
      if !m {
        return false;
      }
    }
    m := GlobMatch(p.service, target.service);
    if m {
      return true;
    }
    if memo == null || HasStar(p.service) {
      return false;
    }
    var destination := memo.Owner(target.service);
    if destination == "" {
      return false;
    }
    var owner := memo.Owner(p.service);
    assert target.service in memo.asked;
    matched := destination == owner;
  }

  /** The loop over one list of rules. */
  method FindRule(ps: seq<Pattern>, target: Target, unknownMatches: bool, memo: OwnerMemo?)
    returns (rule: Option<Pattern>)
    requires Kept(memo)
    modifies memo, if memo == null then {} else {memo.bus}
    ensures Kept(memo)
    ensures memo == null ==> rule == FirstMatch(ps, target, unknownMatches, None)
    ensures memo != null ==>
              && old(memo.asked) <= memo.asked
              && forall f | Agrees(f, memo.bus.owner, memo.asked) ::
                   rule == FirstMatch(ps, target, unknownMatches, Some(f))
  {
    hide RuleMatches;
    assert ps[0..] == ps;
    for i := 0 to |ps|
      invariant Kept(memo)
      invariant memo == null ==> FirstMatch(ps, target, unknownMatches, None) == FirstMatch(ps[i..], target, unknownMatches, None)
      invariant memo != null ==>
                  && old(memo.asked) <= memo.asked
                  && forall f | Agrees(f, memo.bus.owner, memo.asked) ::
                       FirstMatch(ps, target, unknownMatches, Some(f)) == FirstMatch(ps[i..], target, unknownMatches, Some(f))
    {
      assert ps[i..][0] == ps[i] && ps[i..][1..] == ps[i + 1..];
      ghost var asked := if memo == null then [] else memo.asked;
      var m := Matches(ps[i], target, unknownMatches, memo);
      if memo != null { AgreesLess(memo.bus.owner, asked, memo.asked); }
      if m {
        return Some(ps[i]);
      }
    }
    rule := None;
  }

  /** Agreeing on more names is agreeing on fewer. */
  lemma AgreesLess(owner: string -> string, fewer: seq<string>, more: seq<string>)
    requires fewer <= more
    ensures forall f | Agrees(f, owner, more) :: Agrees(f, owner, fewer)
  {
    assert forall name | name in fewer :: name in more;
  }

  class CallPolicy {
    var allowSystemBus: bool
    var allowUniqueNames: bool
    var defaultDeny: bool
    var deny: seq<Pattern>
    var allow: seq<Pattern>
    var builtin: seq<Pattern>

    ghost function View(): Rules
      reads this
    {
      Rules(allowSystemBus, allowUniqueNames, defaultDeny, deny, allow, builtin)
    }

    /** Before any configuration, only `denylist` says no on the session bus. */
    constructor (denylist: seq<string>)
      requires forall i | 0 <= i < |denylist| :: ParsePattern(denylist[i]).Some?
      ensures View() == Rules(false, false, false, [], [], seq(|denylist|, i requires 0 <= i < |denylist| =>
                                                                 ParsePattern(denylist[i]).value))
    {
      allowSystemBus, allowUniqueNames, defaultDeny, deny, allow := false, false, false, [], [];
      builtin := [];
      new;
      for i := 0 to |denylist|
        invariant |builtin| == i && forall k | 0 <= k < i :: builtin[k] == ParsePattern(denylist[k]).value
        invariant !allowSystemBus && !allowUniqueNames && !defaultDeny && deny == [] && allow == []
      {
        builtin := builtin + [ParsePattern(denylist[i]).value];
      }
    }

    /** configure(): all options take effect, or none does. */
    method Configure(options: Options) returns (ok: bool)
      modifies this
      ensures ok == (ParseAll(options.deny).Some? && ParseAll(options.allow).Some?)
      ensures View() ==
              if ok then Rules(options.allowSystemBus, options.allowUniqueNames, options.defaultDeny,
                               ParseAll(options.deny).value, ParseAll(options.allow).value, old(builtin))
              else old(View())
    {
      var parsedDeny := ParseList(options.deny);
      if parsedDeny.None? {
        return false;
      }
      var parsedAllow := ParseList(options.allow);
      if parsedAllow.None? {
        return false;
      }
      allowSystemBus, allowUniqueNames := options.allowSystemBus, options.allowUniqueNames;
      defaultDeny, deny, allow := options.defaultDeny, parsedDeny.value, parsedAllow.value;
      ok := true;
    }

    /** destinationAllowed(): no call to that destination is allowed otherwise. */
    method DestinationAllowed(bus: string, service: string) returns (allowed: bool)
      ensures allowed == ((bus == "system" ==> allowSystemBus) && (IsUnique(service) ==> allowUniqueNames))
      ensures !allowed ==> forall t: Target, owner: Lookup | t.bus == bus && t.service == service ::
                             !Decide(View(), t, owner).allowed
    {
      if bus == "system" && !allowSystemBus {
        return false;
      }
      allowed := allowUniqueNames || !IsUnique(service);
    }

    /** evaluate(): the decision of the rules with direct lookups. The bus is asked for `asked`, no
        name twice, and no other answer could change the decision. */
    method Evaluate(target: Target, bus: Bus?) returns (decision: Decision, ghost asked: seq<string>)
      modifies bus
      ensures bus == null ==> decision == Decide(View(), target, None)
      ensures bus != null ==>
                && decision == Decide(View(), target, Some(bus.owner))
                && bus.calls == old(bus.calls) + asked
                && forall f | Agrees(f, bus.owner, asked) :: decision == Decide(View(), target, Some(f))
      ensures forall i, j | 0 <= i < j < |asked| :: asked[i] != asked[j]
    {
      hide FirstMatch;
      asked := [];
      if target.bus == "system" && !allowSystemBus {
        return Decision(false, "system-bus"), [];
      }
      if IsUnique(target.service) && !allowUniqueNames {
        return Decision(false, "unique-name"), [];
      }
      var memo: OwnerMemo? := null;
      if bus != null {
        memo := new OwnerMemo(bus);
      }
      var rule := FindRule(deny, target, true, memo);
      if memo != null {
        asked := memo.asked;
      }
      if rule.Some? {
        return Decision(false, "deny:" + rule.value.text), asked;
      }
      rule := FindRule(allow, target, false, null);
      if rule.Some? {
        return Decision(true, "allow:" + rule.value.text), asked;
      }
      rule := FindRule(builtin, target, true, memo);
      if memo != null {
        AgreesLess(bus.owner, asked, memo.asked);
        asked := memo.asked;
      }
      if rule.Some? {
        return Decision(false, "builtin:" + rule.value.text), asked;
      }
      if defaultDeny {
        return Decision(false, "default-deny"), asked;
      }
      decision := Decision(true, "");
    }
  }

  function ParseAll(texts: seq<string>): Option<seq<Pattern>> {
    if texts == [] then Some([])
    else
      var first :- ParsePattern(texts[0]);
      var rest :- ParseAll(texts[1..]);
      Some([first] + rest)
  }

  method ParseList(texts: seq<string>) returns (ps: Option<seq<Pattern>>)
    ensures ps == ParseAll(texts)
  {
    hide ParsePattern;
    var parsed: seq<Pattern> := [];
    assert texts[0..] == texts;
    assert ParseAll(texts).Some? ==> parsed + ParseAll(texts).value == ParseAll(texts).value;
    for i := 0 to |texts|
      invariant ParseAll(texts) == (match ParseAll(texts[i..]) case None => None case Some(rest) => Some(parsed + rest))
    {
      assert texts[i..][0] == texts[i] && texts[i..][1..] == texts[i + 1..];
      var p := ParsePattern(texts[i]);
      if p.None? {
        return None;
      }
      ghost var rest := ParseAll(texts[i + 1..]);
      if rest.Some? { assert parsed + ([p.value] + rest.value) == (parsed + [p.value]) + rest.value; }
      parsed := parsed + [p.value];
    }
    assert texts[|texts|..] == [] && parsed + [] == parsed;
    ps := Some(parsed);
  }
}
