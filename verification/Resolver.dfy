/** The introspection resolver (interfaceresolver.cpp): a machine over XML events, and what they
    compute on an introspection document seen as a tree. */
module Resolver {
  import opened Sequences

  type Attributes = map<string, string>

  /** What QXmlStreamReader yields; Other stands for text, comments and the document's ends. */
  datatype Event = Start(name: string, attributes: Attributes) | End(name: string) | Other

  datatype State = Unavailable | Unique | Ambiguous
  datatype Resolution = Resolution(state: State, interface: string, inSignature: seq<string>)

  /** The value of an attribute, "" when it is missing. */
  function Attribute(attributes: Attributes, name: string): string {
    if name in attributes then attributes[name] else ""
  }

  predicate TakesInput(attributes: Attributes) {
    Attribute(attributes, "direction") in ["", "in"]
  }

  function Verdict(hasError: bool, interface: string, candidates: seq<Resolution>): Resolution {
    if hasError || candidates == [] then Resolution(Unavailable, interface, [])
    else if |candidates| > 1 then Resolution(Ambiguous, interface, [])
    else candidates[0]
  }

  // ------------------------------------------------------------ the machine, one event at a time

  /** What is looked for: a method and a property, on `interface`. */
  datatype Query = Query(interface: string, method_: string, property: string)

  /** `open` is the method being read, if any; `candidates` and `types` what was found so far. */
  datatype Machine = Machine(nodeDepth: int, interface: string, open: seq<Resolution>,
                             candidates: seq<Resolution>, types: seq<string>)

  const START := Machine(0, "", [], [], [])

  function Step(m: Machine, e: Event, q: Query): Machine {
    if e.Start? && e.name == "node" then m.(nodeDepth := m.nodeDepth + 1)
    else if e.End? && e.name == "node" then m.(nodeDepth := m.nodeDepth - 1)
    else if m.nodeDepth > 1 then m
    else
      match e
      case Start(name, attributes) =>
        if name == "interface" then m.(interface := Attribute(attributes, "name"))
        else if name == "method" && Attribute(attributes, "name") == q.method_ && q.interface in ["", m.interface] then
          m.(open := [Resolution(Unique, m.interface, [])])
        else if name == "property" && Attribute(attributes, "name") == q.property && q.interface == m.interface then
          m.(types := m.types + [Attribute(attributes, "type")])
        else if m.open != [] && name == "arg" && TakesInput(attributes) then
          m.(open := [m.open[0].(inSignature := m.open[0].inSignature + [Attribute(attributes, "type")])])
        else m
      case End(name) =>
        if name == "method" then m.(open := [], candidates := m.candidates + m.open)
        else if name == "interface" then m.(interface := "")
        else m
      case Other => m
  }

  function Run(m: Machine, events: seq<Event>, q: Query): Machine
    decreases events
  {
    if events == [] then m else Run(Step(m, events[0], q), events[1..], q)
  }

  function Resolve(events: seq<Event>, hasError: bool, interface: string, method_: string): Resolution {
    Verdict(hasError, interface, Run(START, events, Query(interface, method_, "")).candidates)
  }

  function FirstOf(types: seq<string>): string {
    if types == [] then "" else types[0]
  }

  function PropertyType(events: seq<Event>, interface: string, property: string): string {
    FirstOf(Run(START, events, Query(interface, "", property)).types)
  }

  /** resolveMethodFromXml. */
  method ResolveMethodFromXml(events: seq<Event>, hasError: bool, interface: string, method_: string)
    returns (result: Resolution)
    ensures result == Resolve(events, hasError, interface, method_)
  {
    var candidates: seq<Resolution> := [];
    var current := Resolution(Unavailable, "", []);
    var currentInterface := "";
    var inMethod := false;
    var nodeDepth := 0;
    ghost var q := Query(interface, method_, "");
    ghost var m, end := START, Run(START, events, q);
    assert events[0..] == events;
    for i := 0 to |events|
      invariant inMethod ==> current.state == Unique
      invariant m == Machine(nodeDepth, currentInterface, if inMethod then [current] else [], candidates, m.types)
      invariant Run(m, events[i..], q) == end
    {
      assert events[i..][0] == events[i] && events[i..][1..] == events[i + 1..];
      assert candidates + [] == candidates;
      var e := events[i];
      m := Step(m, e, q);
      if e.Start? && e.name == "node" {
        nodeDepth := nodeDepth + 1;
      } else if e.End? && e.name == "node" {
        nodeDepth := nodeDepth - 1;
      } else if nodeDepth > 1 {
        continue;
      } else if e.Start? {
        if e.name == "interface" {
          currentInterface := Attribute(e.attributes, "name");
        } else if e.name == "method" && Attribute(e.attributes, "name") == method_
                  && (interface == "" || currentInterface == interface) {
          inMethod := true;
          current := Resolution(Unique, currentInterface, []);
        } else if inMethod && e.name == "arg" {
          var direction := Attribute(e.attributes, "direction");
          if direction == "" || direction == "in" {
            current := current.(inSignature := current.inSignature + [Attribute(e.attributes, "type")]);
          }
        }
      } else if e.End? {
        if inMethod && e.name == "method" {
          candidates := candidates + [current];
          inMethod := false;
        } else if e.name == "interface" {
          currentInterface := "";
        }
      }
    }
    result := Resolution(Unavailable, interface, []);
    if hasError || candidates == [] {
      return;
    }
    if |candidates| > 1 {
      return result.(state := Ambiguous);
    }
    result := candidates[0];
  }

  lemma {:induction false} TypesStay(m: Machine, events: seq<Event>, q: Query)
    ensures m.types <= Run(m, events, q).types
    decreases events
  {
    if events != [] {
      assert m.types <= Step(m, events[0], q).types;
      hide Step;
      TypesStay(Step(m, events[0], q), events[1..], q);
    }
  }

  /** propertyTypeFromXml, which stops at the first property that fits. */
  method PropertyTypeFromXml(events: seq<Event>, interface: string, property: string) returns (signature: string)
    ensures signature == PropertyType(events, interface, property)
  {
    var currentInterface := "";
    var nodeDepth := 0;
    ghost var q := Query(interface, "", property);
    ghost var m, end := START, Run(START, events, q);
    assert events[0..] == events;
    for i := 0 to |events|
      invariant m == Machine(nodeDepth, currentInterface, m.open, m.candidates, [])
      invariant Run(m, events[i..], q) == end
    {
      assert events[i..][0] == events[i] && events[i..][1..] == events[i + 1..];
      var e := events[i];
      m := Step(m, e, q);
      if e.Start? && e.name == "node" {
        nodeDepth := nodeDepth + 1;
      } else if e.End? && e.name == "node" {
        nodeDepth := nodeDepth - 1;
      } else if nodeDepth > 1 {
        continue;
      } else if e.Start? {
        if e.name == "interface" {
          currentInterface := Attribute(e.attributes, "name");
        } else if e.name == "property" && currentInterface == interface
                  && Attribute(e.attributes, "name") == property {
          signature := Attribute(e.attributes, "type");
          TypesStay(m, events[i + 1..], q);
          assert m.types == [signature];
          return;
        }
      } else if e.End? && e.name == "interface" {
        currentInterface := "";
      }
    }
    signature := "";
  }

  // ------------------------------------------------------------ documents

  datatype Xml = Text | Element(name: string, attributes: Attributes, children: seq<Xml>)

  function Events(x: Xml): seq<Event> {
    match x
    case Text => [Other]
    case Element(name, attributes, children) => [Start(name, attributes)] + EventsOf(children) + [End(name)]
  }

  function EventsOf(xs: seq<Xml>): seq<Event> {
    if xs == [] then [] else Events(xs[0]) + EventsOf(xs[1..])
  }

  /** No element of `x` has one of these names. */
  predicate Without(x: Xml, names: set<string>) {
    x.Element? ==> x.name !in names && forall c | c in x.children :: Without(c, names)
  }

  const STRUCTURE: set<string> := {"node", "interface", "method", "property"}

  /** The shape of introspection data. Elements that are not part of it (annotations, signals,
      documentation) may stand anywhere as long as they hold none of its elements; child nodes
      may hold anything. */
  predicate IsArg(x: Xml) {
    x.Element? && x.name == "arg" && forall c | c in x.children :: Without(c, STRUCTURE + {"arg"})
  }

  predicate IsMethod(x: Xml) {
    && x.Element? && x.name == "method"
    && forall c | c in x.children :: IsArg(c) || Without(c, STRUCTURE + {"arg"})
  }

  predicate IsProperty(x: Xml) {
    x.Element? && x.name == "property" && forall c | c in x.children :: Without(c, STRUCTURE)
  }

  predicate IsInterface(x: Xml) {
    && x.Element? && x.name == "interface"
    && forall c | c in x.children :: IsMethod(c) || IsProperty(c) || Without(c, STRUCTURE)
  }

  predicate IsChildNode(x: Xml) {
    x.Element? && x.name == "node"
  }

  predicate IsIntrospection(root: Xml) {
    && root.Element? && root.name == "node"
    && forall c | c in root.children :: IsInterface(c) || IsChildNode(c) || Without(c, STRUCTURE)
  }

  /** The events of a document: its prolog, its root element, what follows. */
  function Document(before: nat, root: Xml, after: nat): seq<Event> {
    seq(before, _ => Other) + Events(root) + seq(after, _ => Other)
  }

  // ------------------------------------------------------------ what the documents declare

  function Name(x: Xml): string {
    if x.Element? then Attribute(x.attributes, "name") else ""
  }

  /** An argument goes in unless it says otherwise. */
  predicate GoesIn(x: Xml) {
    IsArg(x) && ("direction" in x.attributes ==> x.attributes["direction"] in ["", "in"])
  }

  function InSignature(args: seq<Xml>): seq<string> {
    if args == [] then []
    else
      (if GoesIn(args[0]) then [Attribute(args[0].attributes, "type")] else [])
      + InSignature(args[1..])
  }

  /** What one member of an interface adds to the declarations of `method_`. */
  function MethodIn(x: Xml, interface: string, method_: string): seq<Resolution> {
    if IsMethod(x) && Name(x) == method_ then [Resolution(Unique, interface, InSignature(x.children))] else []
  }

  function MethodsIn(members: seq<Xml>, interface: string, method_: string): seq<Resolution> {
    if members == [] then []
    else MethodIn(members[0], interface, method_) + MethodsIn(members[1..], interface, method_)
  }

  /** What one element under the root adds; every interface counts when `interface` is empty. */
  function MethodsOf(x: Xml, interface: string, method_: string): seq<Resolution> {
    if IsInterface(x) && interface in ["", Name(x)] then MethodsIn(x.children, Name(x), method_) else []
  }

  /** The declarations of `method_` directly under the root. */
  function Methods(parts: seq<Xml>, interface: string, method_: string): seq<Resolution> {
    if parts == [] then []
    else MethodsOf(parts[0], interface, method_) + Methods(parts[1..], interface, method_)
  }

  /** The types under which a property is declared, in the same steps. */
  function TypeIn(x: Xml, property: string): seq<string> {
    if IsProperty(x) && Name(x) == property then [Attribute(x.attributes, "type")] else []
  }

  function TypesIn(members: seq<Xml>, property: string): seq<string> {
    if members == [] then [] else TypeIn(members[0], property) + TypesIn(members[1..], property)
  }

  function TypesOf(x: Xml, interface: string, property: string): seq<string> {
    if IsInterface(x) && Name(x) == interface then TypesIn(x.children, property) else []
  }

  function Types(parts: seq<Xml>, interface: string, property: string): seq<string> {
    if parts == [] then [] else TypesOf(parts[0], interface, property) + Types(parts[1..], interface, property)
  }

  // ------------------------------------------------------------ the machine on a document

  lemma {:induction false} RunAppend(m: Machine, a: seq<Event>, b: seq<Event>, q: Query)
    ensures Run(m, a + b, q) == Run(Run(m, a, q), b, q)
    decreases a
  {
    hide Step;
    if a == [] {
      assert a + b == b;
    } else {
      RunAppend(Step(m, a[0], q), a[1..], b, q);
      assert (a + b)[0] == a[0] && (a + b)[1..] == a[1..] + b;
    }
  }

  lemma RunOne(m: Machine, e: Event, q: Query)
    ensures Run(m, [e], q) == Step(m, e, q)
  {
    hide Step;
    assert [e][1..] == [];
    assert Run(Step(m, e, q), [], q) == Step(m, e, q);
  }

  /** An element is its start, its content and its end. */
  lemma RunElement(m: Machine, x: Xml, q: Query)
    requires x.Element?
    ensures var inside := Step(m, Start(x.name, x.attributes), q);
            var after := Run(inside, EventsOf(x.children), q);
            Run(m, Events(x), q) == Step(after, End(x.name), q)
  {
    hide Step, Run;
    var inside := Step(m, Start(x.name, x.attributes), q);
    var after := Run(inside, EventsOf(x.children), q);
    RunOne(m, Start(x.name, x.attributes), q);
    RunOne(after, End(x.name), q);
    RunAppend(m, [Start(x.name, x.attributes)], EventsOf(x.children), q);
    RunAppend(m, [Start(x.name, x.attributes)] + EventsOf(x.children), [End(x.name)], q);
  }

  lemma RunCons(m: Machine, xs: seq<Xml>, q: Query)
    requires xs != []
    ensures Run(m, EventsOf(xs), q) ==
            Run(Run(m, Events(xs[0]), q), EventsOf(xs[1..]), q)
  {
    hide Step, Run, Events;
    RunAppend(m, Events(xs[0]), EventsOf(xs[1..]), q);
  }

  lemma RunNothing(m: Machine, q: Query)
    ensures Run(m, EventsOf([]), q) == m
  {
  }

  /** Inside a child node nothing counts. */
  lemma {:induction false} InsideChild(m: Machine, x: Xml, q: Query)
    requires m.nodeDepth > 1
    ensures Run(m, Events(x), q) == m
    decreases x, 1
  {
    match x
    case Text =>
      RunOne(m, Other, q);
    case Element(name, attributes, children) =>
      RunElement(m, x, q);
      hide Run;
      InsideChildren(Step(m, Start(name, attributes), q), children, q);
  }

  lemma {:induction false} InsideChildren(m: Machine, xs: seq<Xml>, q: Query)
    requires m.nodeDepth > 1
    ensures Run(m, EventsOf(xs), q) == m
    decreases xs, 0
  {
    hide Step;
    if xs == [] {
      RunNothing(m, q);
    } else {
      RunCons(m, xs, q);
      hide Run;
      InsideChild(m, xs[0], q);
      InsideChildren(m, xs[1..], q);
    }
  }

  /** Foreign elements are passed over. */
  lemma {:induction false} Foreign(m: Machine, x: Xml, q: Query)
    requires m.nodeDepth == 1 && Without(x, STRUCTURE) && (m.open != [] ==> Without(x, {"arg"}))
    ensures Run(m, Events(x), q) == m
    decreases x, 1
  {
    match x
    case Text =>
      RunOne(m, Other, q);
    case Element(name, attributes, children) =>
      RunElement(m, x, q);
      hide Run;
      assert Step(m, Start(name, attributes), q) == m;
      AllForeign(m, children, q);
  }

  lemma {:induction false} AllForeign(m: Machine, xs: seq<Xml>, q: Query)
    requires m.nodeDepth == 1
    requires forall x | x in xs :: Without(x, STRUCTURE) && (m.open != [] ==> Without(x, {"arg"}))
    ensures Run(m, EventsOf(xs), q) == m
    decreases xs, 0
  {
    hide Step, Without;
    if xs == [] {
      RunNothing(m, q);
    } else {
      RunCons(m, xs, q);
      hide Run;
      Foreign(m, xs[0], q);
      AllForeign(m, xs[1..], q);
    }
  }

  lemma {:induction false} WithoutBoth(x: Xml, a: set<string>, b: set<string>)
    requires Without(x, a + b)
    ensures Without(x, a) && Without(x, b)
  {
    if x.Element? {
      forall c | c in x.children ensures Without(c, a) && Without(c, b) { WithoutBoth(c, a, b); }
    }
  }

  /** The arguments of a method are collected in order; nothing is when the method was not wanted. */
  lemma {:induction false} ReadArgs(m: Machine, args: seq<Xml>, q: Query)
    requires m.nodeDepth == 1 && |m.open| <= 1
    requires forall a | a in args :: IsArg(a) || Without(a, STRUCTURE + {"arg"})
    ensures Run(m, EventsOf(args), q) ==
            if m.open == [] then m
            else m.(open := [m.open[0].(inSignature := m.open[0].inSignature + InSignature(args))])
    decreases args
  {
    if args == [] {
      RunNothing(m, q);
      if m.open != [] { assert m.open[0].inSignature + [] == m.open[0].inSignature; }
    } else {
      RunCons(m, args, q);
      ReadArg(m, args[0], q);
      hide Run, Without;
      var next := Run(m, Events(args[0]), q);
      ReadArgs(next, args[1..], q);
      if m.open != [] {
        var one := if IsArg(args[0]) && TakesInput(args[0].attributes) then [Attribute(args[0].attributes, "type")] else [];
        assert m.open[0].inSignature + (one + InSignature(args[1..])) == m.open[0].inSignature + one + InSignature(args[1..]);
        assert m.open[0].inSignature + [] == m.open[0].inSignature;
      }
    }
  }

  lemma ReadArg(m: Machine, a: Xml, q: Query)
    requires m.nodeDepth == 1 && |m.open| <= 1
    requires IsArg(a) || Without(a, STRUCTURE + {"arg"})
    ensures Run(m, Events(a), q) ==
            if m.open != [] && IsArg(a) && TakesInput(a.attributes)
            then m.(open := [m.open[0].(inSignature := m.open[0].inSignature + [Attribute(a.attributes, "type")])])
            else m
  {
    if IsArg(a) {
      RunElement(m, a, q);
      hide Run;
      forall c | c in a.children ensures Without(c, STRUCTURE) && Without(c, {"arg"}) {
        WithoutBoth(c, STRUCTURE, {"arg"});
      }
      hide Without;
      AllForeign(Step(m, Start("arg", a.attributes), q), a.children, q);
    } else {
      WithoutBoth(a, STRUCTURE, {"arg"});
      Foreign(m, a, q);
    }
  }

  /** What was found so far, and what `more` and `types` add to it. */
  function Adding(m: Machine, more: seq<Resolution>, types: seq<string>): Machine {
    m.(candidates := m.candidates + more, types := m.types + types)
  }

  lemma AddingNothing(m: Machine)
    ensures Adding(m, [], []) == m
  {
    assert m.candidates + [] == m.candidates && m.types + [] == m.types;
  }

  lemma AddingTwice(m: Machine, a: seq<Resolution>, s: seq<string>, b: seq<Resolution>, t: seq<string>)
    ensures Adding(Adding(m, a, s), b, t) == Adding(m, a + b, s + t)
  {
    assert m.candidates + a + b == m.candidates + (a + b) && m.types + s + t == m.types + (s + t);
  }

  lemma ReadMethod(m: Machine, x: Xml, q: Query)
    requires m.nodeDepth == 1 && m.open == [] && IsMethod(x)
    ensures Run(m, Events(x), q) ==
            if Name(x) == q.method_ && q.interface in ["", m.interface]
            then m.(candidates := m.candidates + [Resolution(Unique, m.interface, InSignature(x.children))])
            else m
  {
    RunElement(m, x, q);
    hide Run, Without, IsArg, InSignature, Events;
    var inside := Step(m, Start("method", x.attributes), q);
    ReadArgs(inside, x.children, q);
    assert [] + InSignature(x.children) == InSignature(x.children);
    assert m.candidates + [] == m.candidates;
  }

  lemma ReadProperty(m: Machine, x: Xml, q: Query)
    requires m.nodeDepth == 1 && m.open == [] && IsProperty(x)
    ensures Run(m, Events(x), q) ==
            if Name(x) == q.property && q.interface == m.interface
            then m.(types := m.types + [Attribute(x.attributes, "type")]) else m
  {
    RunElement(m, x, q);
    hide Run, Without, Events;
    AllForeign(Step(m, Start("property", x.attributes), q), x.children, q);
    assert m.candidates + [] == m.candidates;
  }

  lemma ReadMember(m: Machine, x: Xml, q: Query)
    requires m.nodeDepth == 1 && m.open == []
    requires IsMethod(x) || IsProperty(x) || Without(x, STRUCTURE)
    ensures Run(m, Events(x), q) ==
            Adding(m, if q.interface in ["", m.interface] then MethodIn(x, m.interface, q.method_) else [],
                   if q.interface == m.interface then TypeIn(x, q.property) else [])
  {
    AddingNothing(m);
    hide Run, Events, InSignature;
    assert m.candidates + [] == m.candidates && m.types + [] == m.types;
    if IsMethod(x) {
      ReadMethod(m, x, q);
    } else if IsProperty(x) {
      ReadProperty(m, x, q);
    } else {
      Foreign(m, x, q);
    }
  }

  lemma {:induction false} ReadMembers(m: Machine, xs: seq<Xml>, q: Query)
    requires m.nodeDepth == 1 && m.open == []
    requires forall x | x in xs :: IsMethod(x) || IsProperty(x) || Without(x, STRUCTURE)
    ensures Run(m, EventsOf(xs), q) ==
            Adding(m, if q.interface in ["", m.interface] then MethodsIn(xs, m.interface, q.method_) else [],
                   if q.interface == m.interface then TypesIn(xs, q.property) else [])
    decreases xs
  {
    hide IsMethod, IsProperty, Without;
    if xs == [] {
      RunNothing(m, q);
      AddingNothing(m);
    } else {
      RunCons(m, xs, q);
      ReadMember(m, xs[0], q);
      hide Run, MethodIn, TypeIn;
      var methods := if q.interface in ["", m.interface] then MethodIn(xs[0], m.interface, q.method_) else [];
      var types := if q.interface == m.interface then TypeIn(xs[0], q.property) else [];
      ReadMembers(Adding(m, methods, types), xs[1..], q);
      AddingTwice(m, methods, types,
                  if q.interface in ["", m.interface] then MethodsIn(xs[1..], m.interface, q.method_) else [],
                  if q.interface == m.interface then TypesIn(xs[1..], q.property) else []);
    }
  }

  lemma ReadInterface(m: Machine, x: Xml, q: Query)
    requires m.nodeDepth == 1 && m.open == [] && m.interface == "" && IsInterface(x)
    ensures Run(m, Events(x), q) ==
            Adding(m, if q.interface in ["", Name(x)] then MethodsIn(x.children, Name(x), q.method_) else [],
                   if q.interface == Name(x) then TypesIn(x.children, q.property) else [])
  {
    RunElement(m, x, q);
    hide Run, Without, IsMethod, IsProperty, Events, MethodsIn, TypesIn;
    ReadMembers(Step(m, Start("interface", x.attributes), q), x.children, q);
  }

  lemma ReadChildNode(m: Machine, x: Xml, q: Query)
    requires m.nodeDepth == 1 && IsChildNode(x)
    ensures Run(m, Events(x), q) == m
  {
    RunElement(m, x, q);
    hide Run, Without, Events;
    InsideChildren(Step(m, Start("node", x.attributes), q), x.children, q);
  }

  lemma ReadPart(m: Machine, x: Xml, q: Query)
    requires m.nodeDepth == 1 && m.open == [] && m.interface == ""
    requires IsInterface(x) || IsChildNode(x) || Without(x, STRUCTURE)
    ensures Run(m, Events(x), q) == Adding(m, MethodsOf(x, q.interface, q.method_), TypesOf(x, q.interface, q.property))
  {
    AddingNothing(m);
    hide Run, Events, MethodsIn, TypesIn;
    if IsInterface(x) {
      ReadInterface(m, x, q);
    } else if IsChildNode(x) {
      ReadChildNode(m, x, q);
    } else {
      Foreign(m, x, q);
    }
  }

  lemma {:induction false} ReadParts(m: Machine, xs: seq<Xml>, q: Query)
    requires m.nodeDepth == 1 && m.open == [] && m.interface == ""
    requires forall x | x in xs :: IsInterface(x) || IsChildNode(x) || Without(x, STRUCTURE)
    ensures Run(m, EventsOf(xs), q) ==
            Adding(m, Methods(xs, q.interface, q.method_), Types(xs, q.interface, q.property))
    decreases xs
  {
    hide IsInterface, Without;
    if xs == [] {
      RunNothing(m, q);
      AddingNothing(m);
    } else {
      RunCons(m, xs, q);
      ReadPart(m, xs[0], q);
      hide Run, MethodsOf, TypesOf;
      var methods, types := MethodsOf(xs[0], q.interface, q.method_), TypesOf(xs[0], q.interface, q.property);
      ReadParts(Adding(m, methods, types), xs[1..], q);
      AddingTwice(m, methods, types, Methods(xs[1..], q.interface, q.method_), Types(xs[1..], q.interface, q.property));
    }
  }

  lemma {:induction false} RunOthers(m: Machine, n: nat, q: Query)
    ensures Run(m, seq(n, _ => Other), q) == m
    decreases n
  {
    if n > 0 {
      var events := seq(n, _ => Other);
      assert events[1..] == seq(n - 1, _ => Other);
      RunOthers(m, n - 1, q);
    }
  }

  /** On a document the machine finds exactly what is declared directly under the root. */
  lemma ReadsDocument(before: nat, root: Xml, after: nat, q: Query)
    requires IsIntrospection(root)
    ensures var end := Run(START, Document(before, root, after), q);
            && end.candidates == Methods(root.children, q.interface, q.method_)
            && end.types == Types(root.children, q.interface, q.property)
  {
    var prolog, rest := seq(before, _ => Other), seq(after, _ => Other);
    hide Without;
    RunAppend(START, prolog + Events(root), rest, q);
    RunAppend(START, prolog, Events(root), q);
    RunOthers(START, before, q);
    RunElement(START, root, q);
    hide Run, Methods, Types;
    var inside := Step(START, Start("node", root.attributes), q);
    ReadParts(inside, root.children, q);
    RunOthers(Run(START, Events(root), q), after, q);
  }

  // ------------------------------------------------------------ main results

  /** A method is Unique exactly when one declaration of it stands directly under the root, and
      resolves to that one; Ambiguous when there are several and Unavailable when there is none, or
      when the reader failed, with the interface asked for. Child nodes never count. */
  lemma ResolvesTree(before: nat, root: Xml, after: nat, interface: string, method_: string)
    requires IsIntrospection(root)
    ensures var r, declared := Resolve(Document(before, root, after), false, interface, method_),
                               Methods(root.children, interface, method_);
            && (r.state == Unique <==> |declared| == 1) && (|declared| == 1 ==> r == declared[0])
            && (r.state == Ambiguous <==> |declared| > 1)
            && (r.state == Unavailable <==> declared == [])
            && (r.state != Unique ==> r.interface == interface && r.inSignature == [])
    ensures forall events :: Resolve(events, true, interface, method_) == Resolution(Unavailable, interface, [])
  {
    ReadsDocument(before, root, after, Query(interface, method_, ""));
    MethodsAreUnique(root.children, interface, method_);
    hide Run, Methods, IsIntrospection;
  }

  lemma {:induction false} MethodsAreUnique(parts: seq<Xml>, interface: string, method_: string)
    ensures forall r | r in Methods(parts, interface, method_) :: r.state == Unique
  {
    hide IsInterface, MethodsIn;
    if parts != [] {
      MethodsAreUnique(parts[1..], interface, method_);
      if parts[0].Element? { MembersAreUnique(parts[0].children, Name(parts[0]), method_); }
      assert parts[0].Text? ==> !IsInterface(parts[0]) by { NoInterface(); }
    }
  }

  lemma NoInterface()
    ensures !IsInterface(Text)
  {
  }

  lemma {:induction false} MembersAreUnique(members: seq<Xml>, interface: string, method_: string)
    ensures forall r | r in MethodsIn(members, interface, method_) :: r.state == Unique
  {
    hide IsMethod, InSignature;
    if members != [] { MembersAreUnique(members[1..], interface, method_); }
  }

  /** A property has the type of its first declaration directly under the root. */
  lemma PropertyOfTree(before: nat, root: Xml, after: nat, interface: string, property: string)
    requires IsIntrospection(root)
    ensures var types := Types(root.children, interface, property);
            PropertyType(Document(before, root, after), interface, property) == if types == [] then "" else types[0]
  {
    ReadsDocument(before, root, after, Query(interface, "", property));
  }

  /** Naming the interface keeps the declarations on it, in order. */
  function OnInterface(rs: seq<Resolution>, interface: string): seq<Resolution> {
    if rs == [] then []
    else (if rs[0].interface == interface then [rs[0]] else []) + OnInterface(rs[1..], interface)
  }

  lemma {:induction false} OnInterfaceAppend(a: seq<Resolution>, b: seq<Resolution>, interface: string)
    ensures OnInterface(a + b, interface) == OnInterface(a, interface) + OnInterface(b, interface)
  {
    if a == [] {
      assert a + b == b && OnInterface(a, interface) + OnInterface(b, interface) == OnInterface(b, interface);
    } else {
      OnInterfaceAppend(a[1..], b, interface);
      Front(a, b);
      Regroup(if a[0].interface == interface then [a[0]] else [], OnInterface(a[1..], interface), OnInterface(b, interface));
    }
  }

  lemma {:induction false} MethodsAreOn(members: seq<Xml>, declared: string, interface: string, method_: string)
    ensures OnInterface(MethodsIn(members, declared, method_), interface) ==
            if declared == interface then MethodsIn(members, declared, method_) else []
  {
    hide IsMethod, InSignature;
    if members != [] {
      MethodsAreOn(members[1..], declared, interface, method_);
      OnInterfaceAppend(MethodIn(members[0], declared, method_), MethodsIn(members[1..], declared, method_), interface);
    }
  }

  lemma PartIsSelected(part: Xml, interface: string, method_: string)
    requires interface != ""
    ensures MethodsOf(part, interface, method_) == OnInterface(MethodsOf(part, "", method_), interface)
  {
    hide IsMethod, IsProperty, Without, MethodsIn;
    if IsInterface(part) { MethodsAreOn(part.children, Name(part), interface, method_); }
  }

  lemma {:induction false} NamedIsSelected(parts: seq<Xml>, interface: string, method_: string)
    requires interface != ""
    ensures Methods(parts, interface, method_) == OnInterface(Methods(parts, "", method_), interface)
  {
    if parts != [] {
      NamedIsSelected(parts[1..], interface, method_);
      PartIsSelected(parts[0], interface, method_);
      hide OnInterface, MethodsOf;
      OnInterfaceAppend(MethodsOf(parts[0], "", method_), Methods(parts[1..], "", method_), interface);
    } else {
      assert Methods(parts, "", method_) == [];
    }
  }

  /** Resolving again with the interface found gives the same interface and signature. */
  lemma ResolvesAgain(before: nat, root: Xml, after: nat, method_: string)
    requires IsIntrospection(root)
    ensures var document := Document(before, root, after);
            var found := Resolve(document, false, "", method_);
            found.state == Unique && found.interface != "" ==>
              Resolve(document, false, found.interface, method_) == found
  {
    var found := Resolve(Document(before, root, after), false, "", method_);
    var declared := Methods(root.children, "", method_);
    ResolvesTree(before, root, after, "", method_);
    if found.state == Unique && found.interface != "" {
      ResolvesTree(before, root, after, found.interface, method_);
      NamedIsSelected(root.children, found.interface, method_);
      assert declared == [found] && declared[1..] == [];
      assert OnInterface(declared, found.interface) == [found] + OnInterface(declared[1..], found.interface);
    }
  }

  /** Only declarations on the interface asked for are collected. */
  ghost predicate Fits(m: Machine, interface: string) {
    && (forall r | r in m.open :: r.state == Unique && interface in ["", r.interface])
    && (forall r | r in m.candidates :: r.state == Unique && interface in ["", r.interface])
  }

  lemma {:induction false} RunFits(m: Machine, events: seq<Event>, q: Query)
    requires Fits(m, q.interface)
    ensures Fits(Run(m, events, q), q.interface)
    decreases events
  {
    if events != [] {
      StepFits(m, events[0], q);
      hide Step, Fits;
      RunFits(Step(m, events[0], q), events[1..], q);
    }
  }

  lemma StepFits(m: Machine, e: Event, q: Query)
    requires Fits(m, q.interface)
    ensures Fits(Step(m, e, q), q.interface)
  {
  }

  /** On any events at all, even those of a broken document: a result carries the interface asked
      for, except a Unique one when none was. */
  lemma KeepsInterface(events: seq<Event>, hasError: bool, interface: string, method_: string)
    ensures var r := Resolve(events, hasError, interface, method_);
            (interface != "" || r.state != Unique) ==> r.interface == interface
  {
    RunFits(START, events, Query(interface, method_, ""));
  }
}
