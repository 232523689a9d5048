/** One pass over a JMeter plan's elements, in document order, collecting what the plan contains. */
module Jmx {
  import opened Wrappers
  import opened Orders
  import opened StringOrder
  import opened Text
  import AddressText
  import VariableScan

  const DOMAIN := "HTTPSampler.domain"
  const PORT := "HTTPSampler.port"
  const PROTOCOL := "HTTPSampler.protocol"

  datatype Target = Target(scheme: string, host: string, port: Option<nat>)

  datatype PlanSummary = PlanSummary(
    threadGroups: seq<string>, transactionControllers: seq<string>, timers: seq<string>,
    variables: seq<string>, dataFiles: seq<string>, targets: seq<Target>)

  datatype Kind = ThreadGroup | Controller | Timer | DataSet | Defaults | Sampler | Other

  /** The HTTP properties the pass looks at; absent and empty are alike to it. */
  datatype Request = Request(protocol: string, domain: string, port: string)

  /** An element as the pass sees it: the branch it takes, and what it may read of its properties. */
  datatype Element = Element(kind: Kind, name: string, filename: string, request: Request)

  /** An element of the parsed document: two attributes, and its `stringProp` children as (name, text). */
  datatype XmlElement = XmlElement(testclass: string, testname: string, props: seq<(string, string)>)

  function FromXml(e: XmlElement): Element {
    var p := StringProps(e.props);
    Element(KindOf(e.testclass), Strip(e.testname), Get(p, "filename"),
            Request(Get(p, PROTOCOL), Get(p, DOMAIN), Get(p, PORT)))
  }

  function Seen(document: seq<XmlElement>): seq<Element> {
    seq(|document|, i requires 0 <= i < |document| => FromXml(document[i]))
  }

  /** The last property of a name wins, and values are stripped. */
  function StringProps(props: seq<(string, string)>): map<string, string> {
    if props == [] then map[]
    else StringProps(props[..|props| - 1])[props[|props| - 1].0 := Strip(props[|props| - 1].1)]
  }

  function Get(props: map<string, string>, name: string): string {
    if name in props then props[name] else ""
  }

  /** The branch of the pass an element's class takes. */
  function KindOf(testclass: string): Kind {
    if EndsWith(testclass, "ThreadGroup") then ThreadGroup
    else if testclass == "TransactionController" then Controller
    else if EndsWith(testclass, "Timer") then Timer
    else if testclass == "CSVDataSet" then DataSet
    else if testclass == "ConfigTestElement" then Defaults
    else if testclass == "HTTPSamplerProxy" then Sampler
    else Other
  }

  /** The branches exclude one another, so their order does not matter. */
  lemma KindsExclude(testclass: string)
    ensures KindOf(testclass).Timer? <==> EndsWith(testclass, "Timer")
    ensures KindOf(testclass).Controller? <==> testclass == "TransactionController"
    ensures KindOf(testclass).Defaults? <==> testclass == "ConfigTestElement"
    ensures KindOf(testclass).Sampler? <==> testclass == "HTTPSamplerProxy"
    ensures KindOf(testclass).DataSet? <==> testclass == "CSVDataSet"
  {
    if testclass != "" {
      var last := testclass[|testclass| - 1];
      assert EndsWith(testclass, "ThreadGroup") ==> last == "ThreadGroup"[10];
      assert EndsWith(testclass, "Timer") ==> last == "Timer"[4];
    }
    assert "TransactionController"[20] == 'r' && "TransactionController"[19] == 'e';
  }

  const NO_DEFAULTS := Request("", "", "")

  function Or(a: string, b: string): string {
    if a != "" then a else b
  }

  function PortOf(value: string): Option<nat> {
    if AddressText.AllDigits(value) then Some(AddressText.Decimal(value)) else None
  }

  /** HTTP Request Defaults that name a domain; any other defaults element is ignored. */
  predicate DomainDefaults(e: Element) {
    e.kind.Defaults? && e.request.domain != ""
  }

  function HostOf(request: Request, defaults: Request): string {
    Or(request.domain, defaults.domain)
  }

  /** A target as a sampler names it, completed from the defaults in force. */
  function TargetOf(request: Request, defaults: Request): Target {
    Target(
      Or(Or(request.protocol, defaults.protocol), "http"),
      HostOf(request, defaults),
      PortOf(Or(request.port, defaults.port)))
  }

  /** `j` is the last domain-bearing defaults element before position `i`. */
  ghost predicate LastDefaultsBefore(elements: seq<Element>, i: nat, j: int) {
    && 0 <= j < i <= |elements| && DomainDefaults(elements[j])
    && forall k :: j < k < i ==> !DomainDefaults(elements[k])
  }

  /** The defaults in force at `i`: those of the nearest earlier domain-bearing element, or none. */
  ghost predicate InForce(elements: seq<Element>, i: nat, defaults: Request) {
    && i <= |elements|
    && (|| (exists j :: LastDefaultsBefore(elements, i, j) && defaults == elements[j].request)
        || (defaults == NO_DEFAULTS && forall k :: 0 <= k < i ==> !DomainDefaults(elements[k])))
  }

  /** A target some sampler among the first `n` elements names, with the defaults in force where it stands. */
  ghost predicate Sampled(elements: seq<Element>, n: nat, t: Target) {
    exists i: nat, defaults :: i < n <= |elements| && elements[i].kind.Sampler? && InForce(elements, i, defaults)
      && HostOf(elements[i].request, defaults) != "" && t == TargetOf(elements[i].request, defaults)
  }

  /** Every target of the plan: the sampled ones, and the one the final defaults name on their own. */
  ghost predicate PlanTarget(elements: seq<Element>, t: Target) {
    || Sampled(elements, |elements|, t)
    || exists defaults ::
      InForce(elements, |elements|, defaults) && defaults.domain != "" && t == TargetOf(NO_DEFAULTS, defaults)
  }

  function Names(elements: seq<Element>, kind: Kind): set<string> {
    set e | e in elements && e.kind == kind && e.name != "" :: e.name
  }

  function DataFiles(elements: seq<Element>): set<string> {
    set e | e in elements && e.kind.DataSet? && e.filename != "" :: e.filename
  }

  function PortKey(t: Target): nat {
    if t.port.Some? then t.port.value else 0
  }

  /** The key targets are sorted by; two schemes on one host and port tie. */
  predicate TargetBefore(a: Target, b: Target) {
    StringBefore(a.host, b.host) || (a.host == b.host && PortKey(a) < PortKey(b))
  }

  lemma TargetsRank(s: set<Target>)
    ensures Ranks(TargetBefore, s)
  {
    forall a | a in s ensures !TargetBefore(a, a) {
      StringBeforeIrreflexive(a.host);
    }
    forall a, b, c | a in s && b in s && c in s && TargetBefore(a, b) && TargetBefore(b, c) ensures TargetBefore(a, c) {
      if StringBefore(a.host, b.host) && StringBefore(b.host, c.host) {
        StringBeforeTransitive(a.host, b.host, c.host);
      }
    }
  }

  /** What a summary of a plan says, leaving only the order of tied targets open. */
  ghost predicate Describes(summary: PlanSummary, elements: seq<Element>, text: string) {
    && summary.threadGroups == SortedStrings(Names(elements, ThreadGroup))
    && summary.transactionControllers == SortedStrings(Names(elements, Controller))
    && summary.timers == SortedStrings(Names(elements, Timer))
    && summary.dataFiles == SortedStrings(DataFiles(elements))
    && Strictly(StringBefore, summary.variables)
    && (forall name :: name in summary.variables <==> VariableScan.Refers(text, name))
    && Distinct(summary.targets)
    && (forall t :: t in summary.targets <==> PlanTarget(elements, t))
    && (forall i, j :: 0 <= i < j < |summary.targets| ==> !TargetBefore(summary.targets[j], summary.targets[i]))
  }

  lemma InForceUnique(elements: seq<Element>, i: nat, d: Request, d': Request)
    requires InForce(elements, i, d) && InForce(elements, i, d')
    ensures d == d'
  {
    if j :| LastDefaultsBefore(elements, i, j) && d == elements[j].request {
      if j' :| LastDefaultsBefore(elements, i, j') && d' == elements[j'].request {
        assert j == j';
      }
    }
  }

  lemma InForceStep(elements: seq<Element>, i: nat, defaults: Request)
    requires i < |elements| && InForce(elements, i, defaults)
    ensures InForce(elements, i + 1, if DomainDefaults(elements[i]) then elements[i].request else defaults)
  {
    if DomainDefaults(elements[i]) {
      assert LastDefaultsBefore(elements, i + 1, i);
    } else if j :| LastDefaultsBefore(elements, i, j) && defaults == elements[j].request {
      assert LastDefaultsBefore(elements, i + 1, j);
    }
  }

  lemma SampledStep(elements: seq<Element>, i: nat, defaults: Request, t: Target)
    requires i < |elements| && InForce(elements, i, defaults)
    ensures Sampled(elements, i + 1, t) <==>
      Sampled(elements, i, t) ||
      (elements[i].kind.Sampler? && HostOf(elements[i].request, defaults) != ""
       && t == TargetOf(elements[i].request, defaults))
  {
    if Sampled(elements, i + 1, t) {
      var k: nat, d :| k < i + 1 && elements[k].kind.Sampler? && InForce(elements, k, d)
        && HostOf(elements[k].request, d) != "" && t == TargetOf(elements[k].request, d);
      if k == i {
        InForceUnique(elements, i, d, defaults);
      }
    }
  }

  /** The lists the pass fills, and the defaults it carries along. */
  datatype Scan = Scan(threadGroups: set<string>, controllers: set<string>, timers: set<string>,
                       dataFiles: set<string>, defaults: Request, targets: set<Target>)

  function Named(name: string): set<string> {
    if name != "" then {name} else {}
  }

  function Take(scan: Scan, e: Element): Scan {
    match e.kind
    case ThreadGroup => scan.(threadGroups := scan.threadGroups + Named(e.name))
    case Controller => scan.(controllers := scan.controllers + Named(e.name))
    case Timer => scan.(timers := scan.timers + Named(e.name))
    case DataSet => scan.(dataFiles := scan.dataFiles + Named(e.filename))
    case Defaults => if e.request.domain != "" then scan.(defaults := e.request) else scan
    case Sampler =>
      if HostOf(e.request, scan.defaults) == "" then scan
      else scan.(targets := scan.targets + {TargetOf(e.request, scan.defaults)})
    case Other => scan
  }

  ghost predicate NamesTaken(scan: Scan, elements: seq<Element>) {
    && scan.threadGroups == Names(elements, ThreadGroup)
    && scan.controllers == Names(elements, Controller)
    && scan.timers == Names(elements, Timer)
    && scan.dataFiles == DataFiles(elements)
  }

  ghost predicate TargetsTaken(scan: Scan, elements: seq<Element>, n: nat) {
    && InForce(elements, n, scan.defaults)
    && forall t :: t in scan.targets <==> Sampled(elements, n, t)
  }

  lemma TakeNames(scan: Scan, elements: seq<Element>, e: Element)
    requires NamesTaken(scan, elements)
    ensures NamesTaken(Take(scan, e), elements + [e])
  {
    forall k ensures Names(elements + [e], k) == Names(elements, k) + if e.kind == k then Named(e.name) else {} {
    }
    assert DataFiles(elements + [e]) == DataFiles(elements) + if e.kind.DataSet? then Named(e.filename) else {};
  }

  lemma TakeTargets(scan: Scan, elements: seq<Element>, i: nat)
    requires i < |elements| && TargetsTaken(scan, elements, i)
    ensures TargetsTaken(Take(scan, elements[i]), elements, i + 1)
  {
    InForceStep(elements, i, scan.defaults);
    var next := Take(scan, elements[i]);
    forall t ensures t in next.targets <==> Sampled(elements, i + 1, t) {
      SampledStep(elements, i, scan.defaults, t);
    }
  }

  // ---- What that says of the document itself ------------------------------------------------

  ghost predicate LastOfName(props: seq<(string, string)>, name: string, i: int) {
    0 <= i < |props| && props[i].0 == name && forall k :: i < k < |props| ==> props[k].0 != name
  }

  ghost predicate LastText(props: seq<(string, string)>, name: string, value: string) {
    || (exists i :: LastOfName(props, name, i) && value == Strip(props[i].1))
    || (value == "" && forall k :: 0 <= k < |props| ==> props[k].0 != name)
  }

  /** The stripped text of the last property of this name; nothing if there is none. */
  ghost predicate PropertyIs(e: XmlElement, name: string, value: string) {
    LastText(e.props, name, value)
  }

  lemma {:induction false} PropertyExactly(props: seq<(string, string)>, name: string)
    ensures LastText(props, name, Get(StringProps(props), name))
  {
    hide Strip;
    if props != [] {
      var n := |props| - 1;
      var front := props[..n];
      if props[n].0 == name {
        assert LastOfName(props, name, n);
      } else {
        PropertyExactly(front, name);
        OneMoreProperty(props, name, Get(StringProps(front), name));
      }
    }
  }

  lemma OneMoreProperty(props: seq<(string, string)>, name: string, value: string)
    requires props != [] && props[|props| - 1].0 != name && LastText(props[..|props| - 1], name, value)
    ensures LastText(props, name, value)
  {
    hide Strip;
    var front := props[..|props| - 1];
    assert forall k :: 0 <= k < |front| ==> front[k] == props[k];
    if i :| LastOfName(front, name, i) && value == Strip(front[i].1) {
      assert LastOfName(props, name, i);
    }
  }

  lemma PropertyUnique(props: seq<(string, string)>, name: string, v: string, w: string)
    requires LastText(props, name, v) && LastText(props, name, w)
    ensures v == w
  {
    hide Strip;
    if i :| LastOfName(props, name, i) && v == Strip(props[i].1) {
      if j :| LastOfName(props, name, j) && w == Strip(props[j].1) {
        assert i == j;
      }
    }
  }

  lemma PropertyIff(e: XmlElement, name: string, v: string)
    ensures PropertyIs(e, name, v) <==> v == Get(StringProps(e.props), name)
  {
    PropertyExactly(e.props, name);
    if PropertyIs(e, name, v) {
      PropertyUnique(e.props, name, v, Get(StringProps(e.props), name));
    }
    hide LastText, StringProps, Get;
  }

  /** The first value that is there, the sampler's own or else the defaults'. */
  ghost predicate OwnOrInherited(own: Option<XmlElement>, base: Option<XmlElement>, name: string, value: string) {
    || (value != "" && own.Some? && PropertyIs(own.value, name, value))
    || ((own.None? || PropertyIs(own.value, name, ""))
        && (if base.Some? then PropertyIs(base.value, name, value) else value == ""))
  }

  /** A number in decimal digits; any other text is no port. */
  ghost predicate PortReads(port: Option<nat>, text: string) {
    if text != "" && forall c :: c in text ==> '0' <= c <= '9' then port == Some(AddressText.Decimal(text))
    else port == None
  }

  /** The target of a sampler, or of the defaults alone: http unless a protocol is given, and never without a host. */
  ghost predicate Completed(t: Target, own: Option<XmlElement>, base: Option<XmlElement>) {
    && (exists protocol :: OwnOrInherited(own, base, "HTTPSampler.protocol", protocol)
          && t.scheme == if protocol == "" then "http" else protocol)
    && t.host != "" && OwnOrInherited(own, base, "HTTPSampler.domain", t.host)
    && (exists port :: OwnOrInherited(own, base, "HTTPSampler.port", port) && PortReads(t.port, port))
  }

  ghost predicate NamesDomain(e: XmlElement) {
    e.testclass == "ConfigTestElement" && !PropertyIs(e, "HTTPSampler.domain", "")
  }

  /** The nearest defaults before position `i` that name a domain. */
  ghost predicate BaseAt(document: seq<XmlElement>, i: nat, base: Option<XmlElement>) {
    && i <= |document|
    && match base
       case None => forall k :: 0 <= k < i ==> !NamesDomain(document[k])
       case Some(b) =>
         exists j ::
           0 <= j < i && document[j] == b && NamesDomain(b) && forall k :: j < k < i ==> !NamesDomain(document[k])
  }

  ghost predicate FromSampler(document: seq<XmlElement>, i: nat, base: Option<XmlElement>, t: Target) {
    && i < |document| && document[i].testclass == "HTTPSamplerProxy"
    && BaseAt(document, i, base) && Completed(t, Some(document[i]), base)
  }

  /** The targets of a plan: those of its samplers, each with the defaults before it, and that of the last defaults. */
  ghost predicate TargetOfPlan(document: seq<XmlElement>, t: Target) {
    || (exists i: nat, base :: FromSampler(document, i, base, t))
    || (exists b :: BaseAt(document, |document|, Some(b)) && Completed(t, None, Some(b)))
  }

  predicate ClassIs(e: XmlElement, suffix: string, whole: bool) {
    if whole then e.testclass == suffix else EndsWith(e.testclass, suffix)
  }

  ghost predicate ListsNames(names: seq<string>, document: seq<XmlElement>, suffix: string, whole: bool) {
    && Strictly(StringBefore, names)
    && forall name :: name in names <==>
         name != "" && exists e :: e in document && name == Strip(e.testname)
                              && ClassIs(e, suffix, whole)
  }

  /** By host, then by port, no port counting as zero. */
  ghost predicate InOrder(a: Target, b: Target) {
    || StringBefore(a.host, b.host)
    || (a.host == b.host && (if a.port.Some? then a.port.value else 0) <= (if b.port.Some? then b.port.value else 0))
  }

  ghost predicate ListsFiles(files: seq<string>, document: seq<XmlElement>) {
    && Strictly(StringBefore, files)
    && forall file :: file in files <==>
         file != "" && exists e :: e in document && e.testclass == "CSVDataSet" && PropertyIs(e, "filename", file)
  }

  /** Each target once, in that order. */
  ghost predicate ListsTargets(targets: seq<Target>, document: seq<XmlElement>) {
    && Distinct(targets)
    && (forall t :: t in targets <==> TargetOfPlan(document, t))
    && (forall i, j :: 0 <= i < j < |targets| ==> InOrder(targets[i], targets[j]))
  }

  /** What the summary of a plan says, in terms of the document's own classes, names and properties. */
  ghost predicate Summarises(summary: PlanSummary, document: seq<XmlElement>, text: string) {
    && ListsNames(summary.threadGroups, document, "ThreadGroup", false)
    && ListsNames(summary.transactionControllers, document, "TransactionController", true)
    && ListsNames(summary.timers, document, "Timer", false)
    && ListsFiles(summary.dataFiles, document)
    && ListsTargets(summary.targets, document)
    && Strictly(StringBefore, summary.variables)
    && (forall name :: name in summary.variables <==> VariableScan.Refers(text, name))
  }

  lemma NotBeforeInOrder(a: Target, b: Target)
    requires !TargetBefore(b, a)
    ensures InOrder(a, b)
  {
    StringBeforeTotal(a.host, b.host);
  }

  lemma InheritedIs(own: Option<XmlElement>, base: Option<XmlElement>, name: string, value: string)
    ensures OwnOrInherited(own, base, name, value) <==>
      value == Between(own, base, name)
  {
    if own.Some? {
      PropertyIff(own.value, name, value);
      PropertyIff(own.value, name, "");
    }
    if base.Some? {
      PropertyIff(base.value, name, value);
    }
    hide PropertyIs, StringProps, Get;
  }

  function RequestOf(e: Option<XmlElement>): Request {
    if e.Some? then FromXml(e.value).request else NO_DEFAULTS
  }

  /** The value the two elements give a property between them. */
  function Between(own: Option<XmlElement>, base: Option<XmlElement>, name: string): string {
    Or(if own.Some? then Get(StringProps(own.value.props), name) else "",
       if base.Some? then Get(StringProps(base.value.props), name) else "")
  }

  lemma CompletedIs(t: Target, own: Option<XmlElement>, base: Option<XmlElement>)
    ensures Completed(t, own, base) <==>
      HostOf(RequestOf(own), RequestOf(base)) != "" && t == TargetOf(RequestOf(own), RequestOf(base))
  {
    BetweenIs(own, base);
    var protocol, port := Between(own, base, PROTOCOL), Between(own, base, PORT);
    hide Between, FromXml, StringProps, Or;
    forall name, value ensures OwnOrInherited(own, base, name, value) <==> value == Between(own, base, name) {
      InheritedIs(own, base, name, value);
    }
    hide OwnOrInherited;
    PortIs(t.port, port);
    hide PortReads, PortOf;
    assert OwnOrInherited(own, base, "HTTPSampler.protocol", protocol);
    assert OwnOrInherited(own, base, "HTTPSampler.port", port);
    assert Or(protocol, "http") == if protocol == "" then "http" else protocol by { OrElse(protocol); }
  }

  lemma OrElse(a: string)
    ensures Or(a, "http") == if a == "" then "http" else a
  {
  }

  lemma BetweenIs(own: Option<XmlElement>, base: Option<XmlElement>)
    ensures var x, y := RequestOf(own), RequestOf(base);
      && HostOf(x, y) == Between(own, base, DOMAIN)
      && TargetOf(x, y) == Target(Or(Between(own, base, PROTOCOL), "http"), Between(own, base, DOMAIN),
                                  PortOf(Between(own, base, PORT)))
  {
    hide StringProps, Get, PortOf, KindOf;
  }

  lemma PortIs(port: Option<nat>, text: string)
    ensures PortReads(port, text) <==> port == PortOf(text)
  {
  }

  lemma NamesDomainIs(e: XmlElement)
    ensures NamesDomain(e) <==> DomainDefaults(FromXml(e))
  {
    PropertyIff(e, DOMAIN, "");
    assert DOMAIN == "HTTPSampler.domain";
    KindsExclude(e.testclass);
    hide PropertyIs, StringProps, KindOf, Get;
  }

  lemma BaseIs(document: seq<XmlElement>, i: nat, base: Option<XmlElement>)
    requires BaseAt(document, i, base)
    ensures InForce(Seen(document), i, RequestOf(base))
  {
    forall k | 0 <= k < |document| ensures NamesDomain(document[k]) <==> DomainDefaults(Seen(document)[k]) {
      NamesDomainIs(document[k]);
    }
    hide NamesDomain, DomainDefaults, FromXml;
    if base.Some? {
      var j :| 0 <= j < i && document[j] == base.value && NamesDomain(base.value)
        && forall k :: j < k < i ==> !NamesDomain(document[k]);
      assert LastDefaultsBefore(Seen(document), i, j);
    }
  }

  lemma {:induction false} BaseExists(document: seq<XmlElement>, i: nat) returns (base: Option<XmlElement>)
    requires i <= |document|
    ensures BaseAt(document, i, base)
  {
    hide NamesDomain;
    if i == 0 {
      base := None;
    } else if NamesDomain(document[i - 1]) {
      base := Some(document[i - 1]);
    } else {
      base := BaseExists(document, i - 1);
      BaseStays(document, i, base);
    }
  }

  lemma BaseStays(document: seq<XmlElement>, i: nat, base: Option<XmlElement>)
    requires 0 < i <= |document| && BaseAt(document, i - 1, base) && !NamesDomain(document[i - 1])
    ensures BaseAt(document, i, base)
  {
    hide NamesDomain;
  }

  lemma TargetsOfPlan(document: seq<XmlElement>, t: Target)
    ensures PlanTarget(Seen(document), t) <==> TargetOfPlan(document, t)
  {
    var elements := Seen(document);
    hide FromXml, Completed, TargetOf, HostOf, BaseAt, InForce;
    if TargetOfPlan(document, t) {
      if i: nat, base :| FromSampler(document, i, base, t) {
        SamplerListed(document, i, base, t);
      } else {
        var b :| BaseAt(document, |document|, Some(b)) && Completed(t, None, Some(b));
        var base := Some(b);
        BaseIs(document, |document|, base);
        CompletedIs(t, None, base);
        LastListed(elements, base, t);
      }
    }
    if PlanTarget(elements, t) {
      PlanHasSource(document, t);
    }
  }

  lemma SamplerListed(document: seq<XmlElement>, i: nat, base: Option<XmlElement>, t: Target)
    requires FromSampler(document, i, base, t)
    ensures Sampled(Seen(document), |document|, t)
  {
    BaseIs(document, i, base);
    CompletedIs(t, Some(document[i]), base);
    KindsExclude(document[i].testclass);
    hide Completed, TargetOf, HostOf, BaseAt, InForce, KindOf, StringProps;
    assert Seen(document)[i].kind.Sampler?;
  }

  lemma LastListed(elements: seq<Element>, base: Option<XmlElement>, t: Target)
    requires base.Some? && InForce(elements, |elements|, RequestOf(base))
    requires HostOf(NO_DEFAULTS, RequestOf(base)) != "" && t == TargetOf(NO_DEFAULTS, RequestOf(base))
    ensures PlanTarget(elements, t)
  {
    hide InForce, FromXml, TargetOf, Sampled;
  }

  lemma PlanHasSource(document: seq<XmlElement>, t: Target)
    requires PlanTarget(Seen(document), t)
    ensures TargetOfPlan(document, t)
  {
    var elements := Seen(document);
    hide FromXml, Completed, TargetOf, BaseAt, InForce;
    if Sampled(elements, |elements|, t) {
      var i: nat, d :| i < |elements| && elements[i].kind.Sampler? && InForce(elements, i, d)
        && HostOf(elements[i].request, d) != "" && t == TargetOf(elements[i].request, d);
      var base := BaseExists(document, i);
      BaseIs(document, i, base);
      InForceUnique(elements, i, d, RequestOf(base));
      CompletedIs(t, Some(document[i]), base);
      SamplerClass(document, i);
      assert FromSampler(document, i, base, t);
    } else {
      var d :| InForce(elements, |elements|, d) && d.domain != "" && t == TargetOf(NO_DEFAULTS, d);
      var base := BaseExists(document, |document|);
      BaseIs(document, |document|, base);
      InForceUnique(elements, |elements|, d, RequestOf(base));
      CompletedIs(t, None, base);
      assert base == Some(base.value);
    }
  }

  lemma SamplerClass(document: seq<XmlElement>, i: nat)
    requires i < |document| && Seen(document)[i].kind.Sampler?
    ensures document[i].testclass == "HTTPSamplerProxy"
  {
    KindsExclude(document[i].testclass);
    hide KindOf, StringProps;
  }

  lemma NamesListed(names: seq<string>, document: seq<XmlElement>, kind: Kind, suffix: string, whole: bool)
    requires names == SortedStrings(Names(Seen(document), kind))
    requires forall e :: e in document ==> (KindOf(e.testclass) == kind <==> ClassIs(e, suffix, whole))
    ensures ListsNames(names, document, suffix, whole)
  {
    var elements := Seen(document);
    hide KindOf, StringProps, Strip;
    forall name ensures name in names <==>
      name != "" && exists e :: e in document && name == Strip(e.testname) && ClassIs(e, suffix, whole) {
      if name in Names(elements, kind) {
        var x :| x in elements && x.kind == kind && x.name != "" && x.name == name;
        var i :| 0 <= i < |elements| && elements[i] == x;
        assert document[i] in document;
      }
      if name != "" && exists e :: e in document && name == Strip(e.testname) && ClassIs(e, suffix, whole) {
        var e :| e in document && name == Strip(e.testname) && ClassIs(e, suffix, whole);
        var i :| 0 <= i < |document| && document[i] == e;
        assert elements[i] in elements && elements[i].kind == kind && elements[i].name == name;
      }
    }
  }

  lemma FilesListed(files: seq<string>, document: seq<XmlElement>, file: string)
    requires files == SortedStrings(DataFiles(Seen(document)))
    ensures file in files <==>
      file != "" && exists e :: e in document && e.testclass == "CSVDataSet" && PropertyIs(e, "filename", file)
  {
    var elements := Seen(document);
    forall e: XmlElement ensures PropertyIs(e, "filename", file) <==> file == Get(StringProps(e.props), "filename") {
      PropertyIff(e, "filename", file);
    }
    forall e | e in document ensures KindOf(e.testclass).DataSet? <==> e.testclass == "CSVDataSet" {
      KindsExclude(e.testclass);
    }
    hide KindOf, StringProps, Strip, PropertyIs, Get;
    if file in DataFiles(elements) {
      var x :| x in elements && x.kind.DataSet? && x.filename != "" && x.filename == file;
      var i :| 0 <= i < |elements| && elements[i] == x;
      assert document[i] in document;
    }
    if e :| file != "" && e in document && e.testclass == "CSVDataSet" && PropertyIs(e, "filename", file) {
      var i :| 0 <= i < |document| && document[i] == e;
      assert elements[i] in elements;
    }
  }

  lemma GroupsExclude(testclass: string)
    ensures KindOf(testclass).ThreadGroup? <==> EndsWith(testclass, "ThreadGroup")
  {
  }

  lemma NamesDescribed(summary: PlanSummary, document: seq<XmlElement>)
    requires summary.threadGroups == SortedStrings(Names(Seen(document), ThreadGroup))
    requires summary.transactionControllers == SortedStrings(Names(Seen(document), Controller))
    requires summary.timers == SortedStrings(Names(Seen(document), Timer))
    ensures ListsNames(summary.threadGroups, document, "ThreadGroup", false)
    ensures ListsNames(summary.transactionControllers, document, "TransactionController", true)
    ensures ListsNames(summary.timers, document, "Timer", false)
  {
    forall e | e in document
      ensures KindOf(e.testclass).ThreadGroup? <==> ClassIs(e, "ThreadGroup", false)
      ensures KindOf(e.testclass).Controller? <==> ClassIs(e, "TransactionController", true)
      ensures KindOf(e.testclass).Timer? <==> ClassIs(e, "Timer", false)
    {
      KindsExclude(e.testclass);
      GroupsExclude(e.testclass);
    }
    hide KindOf, ClassIs, Seen, Names, ListsNames;
    NamesListed(summary.threadGroups, document, ThreadGroup, "ThreadGroup", false);
    NamesListed(summary.transactionControllers, document, Controller, "TransactionController", true);
    NamesListed(summary.timers, document, Timer, "Timer", false);
  }

  lemma FilesDescribed(files: seq<string>, document: seq<XmlElement>)
    requires files == SortedStrings(DataFiles(Seen(document)))
    ensures ListsFiles(files, document)
  {
    forall file ensures file in files <==>
      file != "" && exists e :: e in document && e.testclass == "CSVDataSet" && PropertyIs(e, "filename", file) {
      FilesListed(files, document, file);
    }
    hide PropertyIs, Seen;
  }

  lemma TargetsDescribed(targets: seq<Target>, document: seq<XmlElement>)
    requires Distinct(targets) && forall t :: t in targets <==> PlanTarget(Seen(document), t)
    requires forall i, j :: 0 <= i < j < |targets| ==> !TargetBefore(targets[j], targets[i])
    ensures ListsTargets(targets, document)
  {
    hide TargetBefore, InOrder, TargetOfPlan, PlanTarget, Seen;
    forall t ensures t in targets <==> TargetOfPlan(document, t) {
      TargetsOfPlan(document, t);
    }
    forall i, j | 0 <= i < j < |targets| ensures InOrder(targets[i], targets[j]) {
      NotBeforeInOrder(targets[i], targets[j]);
    }
  }

  lemma DescribesDocument(summary: PlanSummary, document: seq<XmlElement>, text: string)
    requires Describes(summary, Seen(document), text)
    ensures Summarises(summary, document, text)
  {
    hide Names, DataFiles, Seen, PlanTarget, TargetBefore, ListsNames, ListsFiles, ListsTargets;
    NamesDescribed(summary, document);
    FilesDescribed(summary.dataFiles, document);
    TargetsDescribed(summary.targets, document);
  }

  /** `parse_plan` after the XML is read: one pass, with the latest domain-bearing defaults carried along. */
  method ParsePlan(text: string, document: seq<XmlElement>) returns (summary: PlanSummary)
    ensures Describes(summary, Seen(document), text)
    ensures Summarises(summary, document, text)
  {
    hide FromXml, Take, TargetOf, Summarises;
    ghost var elements := Seen(document);
    var scan := Scan({}, {}, {}, {}, NO_DEFAULTS, {});
    for i := 0 to |document|
      invariant NamesTaken(scan, elements[..i])
      invariant TargetsTaken(scan, elements, i)
    {
      TakeNames(scan, elements[..i], elements[i]);
      TakeTargets(scan, elements, i);
      assert elements[..i + 1] == elements[..i] + [elements[i]];
      scan := Take(scan, FromXml(document[i]));
    }
    assert elements[..|elements|] == elements;
    var targets := scan.targets;
    if scan.defaults.domain != "" {
      targets := targets + {TargetOf(NO_DEFAULTS, scan.defaults)};
    }
    forall t ensures t in targets <==> PlanTarget(elements, t) {
      FinalTarget(elements, scan.defaults, t);
    }
    TargetsRank(targets);
    summary := Finish(text, scan, targets);
    hide Names, DataFiles, PlanTarget;
    DescribesDocument(summary, document, text);
  }

  lemma FinalTarget(elements: seq<Element>, defaults: Request, t: Target)
    requires InForce(elements, |elements|, defaults)
    ensures PlanTarget(elements, t) <==>
      Sampled(elements, |elements|, t) || (defaults.domain != "" && t == TargetOf(NO_DEFAULTS, defaults))
  {
    if d :| InForce(elements, |elements|, d) && d.domain != "" && t == TargetOf(NO_DEFAULTS, d) {
      InForceUnique(elements, |elements|, d, defaults);
    }
  }

  method Finish(text: string, scan: Scan, targets: set<Target>) returns (summary: PlanSummary)
    ensures summary.threadGroups == SortedStrings(scan.threadGroups)
    ensures summary.transactionControllers == SortedStrings(scan.controllers)
    ensures summary.timers == SortedStrings(scan.timers)
    ensures summary.dataFiles == SortedStrings(scan.dataFiles)
    ensures Strictly(StringBefore, summary.variables)
    ensures forall name :: name in summary.variables <==> VariableScan.Refers(text, name)
    ensures Arranges(TargetBefore, targets, summary.targets)
  {
    var names := VariableScan.FindVariables(text);
    var variables := SortStrings(names);
    TargetsRank(targets);
    var arranged := Arrange(TargetBefore, targets);
    var a := SortStrings(scan.threadGroups);
    var b := SortStrings(scan.controllers);
    var c := SortStrings(scan.timers);
    var d := SortStrings(scan.dataFiles);
    summary := PlanSummary(a, b, c, variables, d, arranged);
  }

  /** Two readings of one plan can differ only in how targets that tie on host and port are ordered. */
  lemma DescribesUpToTies(a: PlanSummary, b: PlanSummary, elements: seq<Element>, text: string)
    requires Describes(a, elements, text) && Describes(b, elements, text)
    ensures a.(targets := b.targets) == b
    ensures forall t :: t in a.targets <==> t in b.targets
  {
    var names := set name | name in a.variables;
    StringsOrdered(names);
    ListingUnique(StringBefore, names, a.variables, b.variables);
  }
}
