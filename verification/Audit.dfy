/** The audit log (callpolicy.cpp:205-215, dbustools.cpp:75-100): one line for each judged call, and
    which calls it tells apart. */
module Audit {
  import opened Wrappers
  import opened CallPolicy

  // ------------------------------------------------------------ names and decisions

  predicate IsNameChar(c: char) {
    'a' <= c <= 'z' || 'A' <= c <= 'Z' || '0' <= c <= '9' || c == '_'
  }

  ghost predicate NamesOnly(text: string, extra: string) {
    forall c | c in text :: IsNameChar(c) || c in extra
  }

  /** What the tool has made sure of before a call is judged, for whatever interface. */
  ghost predicate Addressed(t: Target) {
    && t.bus in ["session", "system"] && NamesOnly(t.service, ".-:") && NamesOnly(t.path, "/")
    && t.method_ != "" && NamesOnly(t.method_, "")
  }

  /** An interface as a caller may give it, or none. */
  ghost predicate Plain(interface: string) {
    NamesOnly(interface, ".")
  }

  predicate NamesPattern(prefix: string, rule: string) {
    prefix <= rule && ParsePattern(rule[|prefix|..]).Some?
  }

  /** The decisions a policy can take. */
  predicate IsDecision(d: Decision) {
    if d.allowed then d.rule == "" || NamesPattern("allow:", d.rule)
    else
      || d.rule in ["system-bus", "unique-name", "default-deny"]
      || NamesPattern("deny:", d.rule) || NamesPattern("builtin:", d.rule)
  }

  lemma FirstMatchFrom(ps: seq<Pattern>, target: Target, unknownMatches: bool, owner: Lookup)
    requires FirstMatch(ps, target, unknownMatches, owner).Some?
    ensures FirstMatch(ps, target, unknownMatches, owner).value in ps
  {
    hide RuleMatches;
  }

  /** A policy configured from texts takes no other decision. */
  lemma DecisionsAreSuch(r: Rules, target: Target, owner: Lookup)
    requires forall p | p in r.deny + r.allow + r.builtin :: ParsePattern(p.text) == Some(p)
    ensures IsDecision(Decide(r, target, owner))
  {
    hide FirstMatch, ParsePattern;
    var d := Decide(r, target, owner);
    var denied, allowed := FirstMatch(r.deny, target, true, owner), FirstMatch(r.allow, target, false, None);
    var builtin := FirstMatch(r.builtin, target, true, owner);
    if denied.Some? { FirstMatchFrom(r.deny, target, true, owner); Prefixed("deny:", denied.value.text); }
    if allowed.Some? { FirstMatchFrom(r.allow, target, false, None); Prefixed("allow:", allowed.value.text); }
    if builtin.Some? { FirstMatchFrom(r.builtin, target, true, owner); Prefixed("builtin:", builtin.value.text); }
  }

  lemma Prefixed(prefix: string, text: string)
    ensures prefix <= prefix + text && (prefix + text)[|prefix|..] == text
  {
  }

  // ------------------------------------------------------------ the line

  const HEAD := "plasma-mcp-bridge: audit: "

  function Verdict(d: Decision): string {
    if d.allowed then "allow" else "deny"
  }

  function Shown(interface: string): string {
    if interface == "" then "*" else interface
  }

  function Suffix(rule: string): string {
    if rule == "" then "" else " " + rule
  }

  /** The part of the line that is not made of checked names only. */
  function Tail(t: Target, d: Decision): string {
    Shown(t.interface) + "." + t.method_ + Suffix(d.rule)
  }

  function AuditLine(t: Target, d: Decision): string {
    HEAD + (Verdict(d) + " " + (t.bus + " " + (t.service + " " + (t.path + " " + Tail(t, d)))))
  }

  /** The fields in their order. */
  lemma LineFormat(t: Target, d: Decision)
    ensures AuditLine(t, d) ==
            "plasma-mcp-bridge: audit: " + (if d.allowed then "allow" else "deny") + " " + t.bus + " " + t.service + " " + t.path
            + " " + (if t.interface == "" then "*" else t.interface) + "." + t.method_
            + (if d.rule == "" then "" else " " + d.rule)
  {
    var call := Shown(t.interface) + "." + t.method_;
    Flatten(HEAD + Verdict(d), t.bus, t.service, t.path, call, Suffix(d.rule));
    assert HEAD + (Verdict(d) + " " + (t.bus + " " + (t.service + " " + (t.path + " " + (call + Suffix(d.rule)))))) ==
           HEAD + Verdict(d) + (" " + (t.bus + " " + (t.service + " " + (t.path + " " + (call + Suffix(d.rule))))));
    var front := HEAD + Verdict(d) + " " + t.bus + " " + t.service + " " + t.path + " ";
    assert front + call == front + Shown(t.interface) + "." + t.method_;
  }

  lemma Flatten(a: string, b: string, c: string, d: string, e: string, f: string)
    ensures a + (" " + (b + " " + (c + " " + (d + " " + (e + f))))) == a + " " + b + " " + c + " " + d + " " + e + f
  {
    assert d + " " + (e + f) == d + " " + e + f;
    assert c + " " + (d + " " + e + f) == c + " " + d + " " + e + f;
    assert b + " " + (c + " " + d + " " + e + f) == b + " " + c + " " + d + " " + e + f;
    assert a + (" " + (b + " " + c + " " + d + " " + e + f)) == a + " " + b + " " + c + " " + d + " " + e + f;
  }

  lemma FieldsSplit(a: string, x: string, b: string, y: string)
    requires ' ' !in a && ' ' !in b && a + " " + x == b + " " + y
    ensures a == b && x == y
  {
    var s, z := a + " " + x, b + " " + y;
    assert s[|a|] == ' ' && z[|b|] == ' ';
    assert forall k | 0 <= k < |a| :: s[k] == a[k] && s[k] != ' ';
    assert forall k | 0 <= k < |b| :: z[k] == b[k] && z[k] != ' ';
    assert s[..|a|] == a && z[..|b|] == b;
    assert s[|a| + 1..] == x && z[|b| + 1..] == y;
  }

  lemma MemberSplit(i: string, m: string, j: string, n: string)
    requires '.' !in m && '.' !in n && i + "." + m == j + "." + n
    ensures i == j && m == n
  {
    var s := i + "." + m;
    DotAt(i, m);
    DotAt(j, n);
    assert |i| == |j|;
    assert s[..|i|] == i && s[..|j|] == j && s[|i| + 1..] == m && s[|j| + 1..] == n;
  }

  lemma DotAt(i: string, m: string)
    requires '.' !in m
    ensures LastIndexOf(i + "." + m, '.') == |i|
  {
    var s := i + "." + m;
    var dot := LastIndexOf(s, '.');
    hide LastIndexOf;
    forall k | |i| < k < |s| ensures s[k] != '.' { CharAfter(i, m, k); }
    assert s[|i|] == '.';
  }

  lemma CharAfter(i: string, m: string, k: nat)
    requires |i| < k < |i + "." + m|
    ensures (i + "." + m)[k] in m
  {
    assert (i + "." + m)[k] == m[k - |i| - 1];
  }

  lemma SamePrefix(head: string, x: string, y: string)
    ensures head + x == head + y <==> x == y
  {
    assert (head + x)[|head|..] == x && (head + y)[|head|..] == y;
  }

  lemma FieldsEqual(a: string, x: string, b: string, y: string)
    requires ' ' !in a && ' ' !in b
    ensures a + " " + x == b + " " + y <==> a == b && x == y
  {
    if a + " " + x == b + " " + y { FieldsSplit(a, x, b, y); }
  }

  /** The line is as telling as its fields: only the tail is left to be looked at. */
  lemma LinesByTail(t: Target, d: Decision, u: Target, e: Decision)
    requires Addressed(t) && Addressed(u)
    ensures AuditLine(t, d) == AuditLine(u, e) <==>
            && d.allowed == e.allowed && t.bus == u.bus && t.service == u.service && t.path == u.path
            && Tail(t, d) == Tail(u, e)
  {
    assert ' ' !in "session" && ' ' !in "system" && ' ' !in "allow" && ' ' !in "deny" && |"allow"| == 5 && |"deny"| == 4;
    hide Tail, IsNameChar;
    assert ' ' !in t.service && ' ' !in u.service && ' ' !in t.path && ' ' !in u.path by {
      assert !IsNameChar(' ') by { NotAName(); }
    }
    var tp, up := t.path + " " + Tail(t, d), u.path + " " + Tail(u, e);
    var ts, us := t.service + " " + tp, u.service + " " + up;
    var tb, ub := t.bus + " " + ts, u.bus + " " + us;
    SamePrefix(HEAD, Verdict(d) + " " + tb, Verdict(e) + " " + ub);
    FieldsEqual(Verdict(d), tb, Verdict(e), ub);
    FieldsEqual(t.bus, ts, u.bus, us);
    FieldsEqual(t.service, tp, u.service, up);
    FieldsEqual(t.path, Tail(t, d), u.path, Tail(u, e));
  }

  lemma NotAName()
    ensures !IsNameChar(' ') && !IsNameChar('\n') && !IsNameChar('.') && !IsNameChar('*')
  {
  }

  // ------------------------------------------------------------ tails

  lemma SuffixStarts(a: string, rule: string)
    ensures |a + Suffix(rule)| > |a| ==> (a + Suffix(rule))[|a|] == ' ' && (a + Suffix(rule))[|a| + 1..] == rule != ""
    ensures |a + Suffix(rule)| == |a| ==> rule == ""
    ensures (a + Suffix(rule))[..|a|] == a
  {
  }

  /** Two ways to read one tail cut it at the same place, or the longer name holds a space there. */
  lemma TailCuts(a: string, r: string, b: string, q: string)
    requires ' ' !in a && a + Suffix(r) == b + Suffix(q)
    ensures |a| <= |b|
    ensures |a| == |b| ==> a == b && r == q
    ensures |a| < |b| ==> b[|a|] == ' ' && b[..|a|] == a && r == (b + Suffix(q))[|a| + 1..]
  {
    hide Suffix;
    SuffixStarts(a, r);
    SuffixStarts(b, q);
    var s := a + Suffix(r);
    assert forall k | 0 <= k < |a| :: s[k] == a[k] && s[k] != ' ';
    if |a| < |b| {
      assert s[|a|] == b[|a|];
      assert s[..|a|] == b[..|a|];
    }
  }

  // ------------------------------------------------------------ what the log tells apart

  /** Calls whose interface holds no space and is not "*" have lines of their own. */
  lemma AuditLineIsUnambiguous(t: Target, d: Decision, u: Target, e: Decision)
    requires Addressed(t) && Addressed(u) && ' ' !in t.interface && ' ' !in u.interface
    requires t.interface != "*" && u.interface != "*"
    requires AuditLine(t, d) == AuditLine(u, e)
    ensures t == u && d == e
  {
    LinesByTail(t, d, u, e);
    NoSpace(t);
    NoSpace(u);
    var a, b := Shown(t.interface) + "." + t.method_, Shown(u.interface) + "." + u.method_;
    TailCuts(a, d.rule, b, e.rule);
    TailCuts(b, e.rule, a, d.rule);
    MemberSplit(Shown(t.interface), t.method_, Shown(u.interface), u.method_);
  }

  lemma NoSpace(t: Target)
    requires Addressed(t)
    ensures '.' !in t.method_ && ' ' !in t.method_
    ensures ' ' !in t.interface ==> ' ' !in Shown(t.interface) + "." + t.method_
  {
    NotAName();
    var i := Shown(t.interface);
    assert forall c :: c in i + "." + t.method_ <==> c in i || c == '.' || c in t.method_;
  }

  /** A plain interface, or "*", then a member. */
  ghost predicate LooksPlain(name: string) {
    var dot := LastIndexOf(name, '.');
    && dot > 0 && name[dot + 1..] != "" && NamesOnly(name[dot + 1..], "")
    && (name[..dot] == "*" || Plain(name[..dot]))
  }

  /** The interface can be cut at a space so that the line reads as another decision about another
      call, one with a plain interface. */
  ghost predicate ReadsAt(u: Target, e: Decision, k: nat) {
    && k < |u.interface| && u.interface[k] == ' ' && LooksPlain(u.interface[..k])
    && k + 1 <= |Tail(u, e)| && IsDecision(Decision(e.allowed, Tail(u, e)[k + 1..]))
  }

  ghost predicate Mistakable(u: Target, e: Decision) {
    u.interface == "*" || exists k :: ReadsAt(u, e, k)
  }

  ghost predicate Confused(t: Target, d: Decision, u: Target, e: Decision) {
    && Addressed(t) && Plain(t.interface) && IsDecision(d)
    && (t != u || d != e) && AuditLine(t, d) == AuditLine(u, e)
  }

  /** A judged call has the line of another one that carries a plain interface if and only if its own
      interface is "*", or begins with such a name and a space after which the line reads as a rule. */
  lemma ConfusedExactly(u: Target, e: Decision)
    requires Addressed(u) && IsDecision(e)
    ensures (exists t, d :: Confused(t, d, u, e)) <==> Mistakable(u, e)
  {
    if t, d :| Confused(t, d, u, e) { OnlyMistakable(t, d, u, e); }
    if u.interface == "*" {
      NotAName();
      LinesByTail(u.(interface := ""), e, u, e);
      assert Confused(u.(interface := ""), e, u, e);
    } else {
      if k :| ReadsAt(u, e, k) {
        var t, d := ReadAs(u, e, k);
      }
    }
  }

  lemma OnlyMistakable(t: Target, d: Decision, u: Target, e: Decision)
    requires Addressed(u) && Confused(t, d, u, e)
    ensures Mistakable(u, e)
  {
    LinesByTail(t, d, u, e);
    NotAName();
    NoSpace(t);
    NoSpace(u);
    var a, b := Shown(t.interface) + "." + t.method_, Shown(u.interface) + "." + u.method_;
    TailCuts(a, d.rule, b, e.rule);
    if |a| == |b| {
      MemberSplit(Shown(t.interface), t.method_, Shown(u.interface), u.method_);
    } else {
      SpaceInside(u, |a|);
      PlainName(t);
      assert ReadsAt(u, e, |a|);
    }
  }

  /** A space in the name part of a tail is one of the interface. */
  lemma SpaceInside(u: Target, k: nat)
    requires Addressed(u)
    requires var b := Shown(u.interface) + "." + u.method_;
             k < |b| && b[k] == ' '
    ensures k < |u.interface| && u.interface[k] == ' '
    ensures (Shown(u.interface) + "." + u.method_)[..k] == u.interface[..k]
  {
    NoSpace(u);
    var i := Shown(u.interface);
    var b := i + "." + u.method_;
    assert forall j | |i| < j < |b| :: b[j] == u.method_[j - |i| - 1] && b[j] != ' ';
    assert k < |i| && b[k] == i[k];
    assert b[..k] == i[..k];
  }

  lemma LastDot(interface: string, member: string)
    requires '.' !in member
    ensures var name := interface + "." + member;
            && LastIndexOf(name, '.') == |interface|
            && name[..|interface|] == interface && name[|interface| + 1..] == member
  {
    hide LastIndexOf;
    var name := interface + "." + member;
    assert name[|interface|] == '.';
    assert forall k | |interface| < k < |name| :: name[k] == member[k - |interface| - 1] && name[k] != '.';
  }

  lemma PlainName(t: Target)
    requires Addressed(t) && Plain(t.interface)
    ensures LooksPlain(Shown(t.interface) + "." + t.method_)
  {
    NoSpace(t);
    LastDot(Shown(t.interface), t.method_);
    hide LastIndexOf, IsNameChar;
    assert Shown(t.interface) != "";
  }

  lemma AtLastDot(name: string)
    requires LastIndexOf(name, '.') > 0
    ensures var dot := LastIndexOf(name, '.');
            name == name[..dot] + "." + name[dot + 1..]
  {
    hide LastIndexOf;
    var dot := LastIndexOf(name, '.');
    assert name[dot] == '.';
  }

  lemma TailAt(u: Target, e: Decision, k: nat)
    requires k < |u.interface| && u.interface[k] == ' '
    ensures var tail := Tail(u, e);
            |tail| > k + 1 && tail == u.interface[..k] + (" " + tail[k + 1..])
  {
    var i, rest := u.interface, "." + u.method_ + Suffix(e.rule);
    assert Tail(u, e) == i + rest;
    hide Tail, Suffix;
    var tail := i + rest;
    assert |rest| >= 1 && tail[..k] == i[..k] && tail[k] == ' ';
    assert tail == tail[..k] + ([tail[k]] + tail[k + 1..]);
  }

  lemma ReadAs(u: Target, e: Decision, k: nat) returns (t: Target, d: Decision)
    requires Addressed(u) && ReadsAt(u, e, k)
    ensures Confused(t, d, u, e)
  {
    var name, tail := u.interface[..k], Tail(u, e);
    var dot := LastIndexOf(name, '.');
    t := u.(interface := if name[..dot] == "*" then "" else name[..dot], method_ := name[dot + 1..]);
    d := Decision(e.allowed, tail[k + 1..]);
    AtLastDot(name);
    TailAt(u, e, k);
    hide LastIndexOf, IsDecision;
    PlainApart(t, u, k);
    assert Tail(t, d) == tail by { hide Plain, Addressed; }
    hide Tail, AuditLine;
    LinesByTail(t, d, u, e);
  }

  lemma PlainApart(t: Target, u: Target, k: nat)
    requires k < |u.interface| && u.interface[k] == ' ' && Plain(t.interface)
    ensures t != u
  {
    NotAName();
    assert u.interface[k] in u.interface;
  }

  /** Such a line: the first call is allowed by the rule for x.m on s, the second by none. */
  lemma OneLineTwoCalls()
    ensures var t, d := Target("session", "s", "/", "x", "m"), Decision(true, "allow:s:x.m");
            var u, e := Target("session", "s", "/", "x.m allow:s:x", "m"), Decision(true, "");
            && Addressed(t) && Addressed(u) && Plain(t.interface) && IsDecision(d) && IsDecision(e)
            && t != u && AuditLine(t, d) == AuditLine(u, e)
  {
    var t, d := Target("session", "s", "/", "x", "m"), Decision(true, "allow:s:x.m");
    var u, e := Target("session", "s", "/", "x.m allow:s:x", "m"), Decision(true, "");
    ReadsAsRule();
    OrdinaryCall("x");
    OrdinaryCall("x.m allow:s:x");
    hide Tail, AuditLine, IsDecision, Addressed, LastIndexOf;
    assert Tail(t, d) == "x.m allow:s:x.m" == Tail(u, e) by { SameTails(); }
    LinesByTail(t, d, u, e);
  }

  lemma ReadsAsRule()
    ensures IsDecision(Decision(true, "allow:s:x.m")) && IsDecision(Decision(true, ""))
  {
    var rule := "allow:s:x.m";
    assert rule[|"allow:"|..] == "s:x.m";
    ParsePatternExact("s:x.m", Pattern("s:x.m", "s", "x", "m"));
    hide LastIndexOf;
    assert "s" + ":" + "x" + "." + "m" == "s:x.m";
  }

  lemma OrdinaryCall(interface: string)
    ensures Addressed(Target("session", "s", "/", interface, "m")) && Plain("x")
  {
  }

  lemma SameTails()
    ensures Tail(Target("session", "s", "/", "x", "m"), Decision(true, "allow:s:x.m")) == "x.m allow:s:x.m"
    ensures Tail(Target("session", "s", "/", "x.m allow:s:x", "m"), Decision(true, "")) == "x.m allow:s:x.m"
  {
    assert "x" + "." + "m" + " " + "allow:s:x.m" == "x.m allow:s:x.m";
    assert "x.m allow:s:x" + "." + "m" == "x.m allow:s:x.m";
  }

  // ------------------------------------------------------------ the log

  /** Each judged call appends its line and a line break. */
  function LogText(entries: seq<(Target, Decision)>): string {
    if entries == [] then "" else AuditLine(entries[0].0, entries[0].1) + "\n" + LogText(entries[1..])
  }

  ghost predicate Clean(entry: (Target, Decision)) {
    Addressed(entry.0) && Plain(entry.0.interface) && '\n' !in entry.1.rule
  }

  lemma LineSplit(a: string, x: string, b: string, y: string)
    requires '\n' !in a && '\n' !in b && a + "\n" + x == b + "\n" + y
    ensures a == b && x == y
  {
    var s, z := a + "\n" + x, b + "\n" + y;
    assert s[|a|] == '\n' && z[|b|] == '\n';
    assert forall k | 0 <= k < |a| :: s[k] == a[k] && s[k] != '\n';
    assert forall k | 0 <= k < |b| :: z[k] == b[k] && z[k] != '\n';
    assert s[..|a|] == a && z[..|b|] == b;
    assert s[|a| + 1..] == x && z[|b| + 1..] == y;
  }

  lemma OneLine(entry: (Target, Decision))
    requires Clean(entry)
    ensures '\n' !in AuditLine(entry.0, entry.1)
  {
    var t, d := entry.0, entry.1;
    NotAName();
    assert '\n' !in HEAD && '\n' !in "session" && '\n' !in "system" && '\n' !in "allow" && '\n' !in "deny";
    assert '\n' !in Tail(t, d) by { assert '\n' !in Shown(t.interface) && '\n' !in Suffix(d.rule); }
    hide Tail;
    assert '\n' !in t.path + " " + Tail(t, d);
    assert '\n' !in t.service + " " + (t.path + " " + Tail(t, d));
    assert '\n' !in t.bus + " " + (t.service + " " + (t.path + " " + Tail(t, d)));
  }

  /** The whole log tells every judged call and decision, in order, as long as the interfaces are
      plain and no rule holds a line break. */
  lemma {:induction false} LogIsDecodable(a: seq<(Target, Decision)>, b: seq<(Target, Decision)>)
    requires forall i | 0 <= i < |a| :: Clean(a[i])
    requires forall i | 0 <= i < |b| :: Clean(b[i])
    requires LogText(a) == LogText(b)
    ensures a == b
  {
    hide AuditLine, Clean;
    if a != [] && b != [] {
      OneLine(a[0]);
      OneLine(b[0]);
      LineSplit(AuditLine(a[0].0, a[0].1), LogText(a[1..]), AuditLine(b[0].0, b[0].1), LogText(b[1..]));
      PlainTold(a[0], b[0]);
      LogIsDecodable(a[1..], b[1..]);
      assert a == [a[0]] + a[1..] && b == [b[0]] + b[1..];
    }
  }

  lemma PlainTold(a: (Target, Decision), b: (Target, Decision))
    requires Clean(a) && Clean(b) && AuditLine(a.0, a.1) == AuditLine(b.0, b.1)
    ensures a == b
  {
    NotAName();
    AuditLineIsUnambiguous(a.0, a.1, b.0, b.1);
  }
}
