/**
 * The logging core: a logger filters messages by severity against its
 * threshold and the severities of the open contexts, counts warnings,
 * errors and fatal messages, and hands each visible line to its endpoints
 * in order. Contexts are pushed when opened and popped when disposed,
 * logging an optional footer first. The endpoint list initialises what it
 * adds and disposes what it removes.
 *
 * Endpoints are values of a type `E`; what they do is outside the model.
 * Every call the core makes into an endpoint is recorded, in order, in
 * `EndpointCollection.calls`, and whether an endpoint throws is a
 * parameter.
 */
module Logging {
  import opened Common
  import StringUtility

  /** `Severity`, ordered by its numeric value. */
  type Severity = x: int | 0 <= x <= 6

  const Verbose: Severity := 0
  const Diag: Severity := 1
  const Info: Severity := 2
  const Warning: Severity := 3
  const Error: Severity := 4
  const Fatal: Severity := 5
  /** `Severity.None`: logging is disabled. */
  const Disabled: Severity := 6

  /** `LogLineInfo` without its time stamp. */
  datatype LogLine = LogLine(severity: Severity, message: string, depth: nat)

  /** A call into an endpoint. */
  datatype EndpointCall<E> = Initialize(endpoint: E) | Receive(endpoint: E, line: LogLine) | DisposeOf(endpoint: E)

  /**
   * Whether a message of `severity` is shown: it is at or above the
   * threshold and so is every open context.
   */
  predicate Shown(threshold: Severity, open: seq<Severity>, severity: Severity)
  {
    severity >= threshold && forall i :: 0 <= i < |open| ==> open[i] >= threshold
  }

  /**
   * A context below the threshold hides every message while it is open;
   * one at or above it changes nothing.
   */
  lemma ShownInContext(threshold: Severity, open: seq<Severity>, context: Severity, severity: Severity)
    ensures Shown(threshold, open + [context], severity) <==> Shown(threshold, open, severity) && context >= threshold
  {
    var inner := open + [context];
    if Shown(threshold, open, severity) && context >= threshold {
      assert forall i :: 0 <= i < |inner| ==> inner[i] == (if i < |open| then open[i] else context);
    }
    if Shown(threshold, inner, severity) {
      assert inner[|open|] == context;
      assert forall i :: 0 <= i < |open| ==> inner[i] == open[i];
    }
  }

  /** The line each shown endpoint receives. */
  function Deliveries<E>(endpoints: seq<E>, line: LogLine): (r: seq<EndpointCall<E>>)
    ensures |r| == |endpoints| && forall j :: 0 <= j < |endpoints| ==> r[j] == Receive(endpoints[j], line)
    decreases |endpoints|
  {
    if endpoints == [] then []
    else Deliveries(endpoints[..|endpoints| - 1], line) + [Receive(endpoints[|endpoints| - 1], line)]
  }

  /** Disposing each endpoint in order. */
  function Disposals<E>(endpoints: seq<E>): (r: seq<EndpointCall<E>>)
    ensures |r| == |endpoints| && forall j :: 0 <= j < |endpoints| ==> r[j] == DisposeOf(endpoints[j])
    decreases |endpoints|
  {
    if endpoints == [] then []
    else Disposals(endpoints[..|endpoints| - 1]) + [DisposeOf(endpoints[|endpoints| - 1])]
  }

  /**
   * How many endpoints a dispatch reaches: all of them up to and including
   * the first that throws.
   */
  function Reach<E>(endpoints: seq<E>, fails: E -> bool): (n: nat)
    ensures n <= |endpoints| && (endpoints != [] ==> n > 0)
    ensures forall j :: 0 <= j < n - 1 ==> !fails(endpoints[j])
    ensures n < |endpoints| ==> fails(endpoints[n - 1])
    decreases |endpoints|
  {
    if endpoints == [] then 0
    else if fails(endpoints[0]) then 1
    else 1 + Reach(endpoints[1..], fails)
  }

  /** The endpoints that satisfy `isT`, in order (`OfType<T>`). */
  function Matching<E(!new)>(s: seq<E>, isT: E -> bool): (r: seq<E>)
    ensures forall x :: x in r <==> x in s && isT(x)
    decreases |s|
  {
    if s == [] then []
    else (if isT(s[0]) then [s[0]] else []) + Matching(s[1..], isT)
  }

  /** The endpoints that do not satisfy `isT`, in order. */
  function Unmatching<E(!new)>(s: seq<E>, isT: E -> bool): (r: seq<E>)
    ensures forall x :: x in r <==> x in s && !isT(x)
    decreases |s|
  {
    if s == [] then []
    else (if isT(s[0]) then [] else [s[0]]) + Unmatching(s[1..], isT)
  }

  /** `s` without its first `k` elements that satisfy `isT`. */
  function Without<E(!new)>(s: seq<E>, isT: E -> bool, k: nat): seq<E>
    decreases |s|
  {
    if s == [] then []
    else if isT(s[0]) && k > 0 then Without(s[1..], isT, k - 1)
    else [s[0]] + Without(s[1..], isT, k)
  }

  lemma {:induction false} WithoutNone<E(!new)>(s: seq<E>, isT: E -> bool)
    ensures Without(s, isT, 0) == s
    decreases |s|
  {
    if s != [] {
      WithoutNone(s[1..], isT);
      assert s == [s[0]] + s[1..];
    }
  }

  /**
   * Removing the `k`-th matching endpoint by value from the list that has
   * lost the first `k` removes the next matching one: no equal element
   * stands before it.
   */
  lemma {:induction false} WithoutStep<E(!new)>(s: seq<E>, isT: E -> bool, k: nat)
    requires k < |Matching(s, isT)|
    ensures Matching(s, isT)[k] in Without(s, isT, k)
    ensures RemoveFirst(Without(s, isT, k), Matching(s, isT)[k]) == Without(s, isT, k + 1)
    decreases |s|
  {
    var x := Matching(s, isT)[k];
    var rest := s[1..];
    if isT(s[0]) {
      assert Matching(s, isT) == [s[0]] + Matching(rest, isT);
      if k == 0 {
        WithoutNone(s, isT);
        WithoutNone(rest, isT);
        assert x == s[0];
      } else {
        assert x == Matching(rest, isT)[k - 1];
        WithoutStep(rest, isT, k - 1);
      }
    } else {
      assert Matching(s, isT) == Matching(rest, isT);
      WithoutStep(rest, isT, k);
      var w := Without(rest, isT, k);
      assert x in Matching(rest, isT);
      assert x != s[0];
      assert ([s[0]] + w)[0] == s[0] && ([s[0]] + w)[1..] == w;
    }
  }

  /** Losing every matching endpoint leaves exactly the others. */
  lemma {:induction false} WithoutAll<E(!new)>(s: seq<E>, isT: E -> bool)
    ensures Without(s, isT, |Matching(s, isT)|) == Unmatching(s, isT)
    decreases |s|
  {
    if s != [] {
      WithoutAll(s[1..], isT);
    }
  }

  // ---------------------------------------------------------------------
  // The endpoint list

  /** `EndpointCollection`: the logger's endpoints, and the calls made into them. */
  class EndpointCollection<E(==,!new)> {
    var endpoints: seq<E>
    var calls: seq<EndpointCall<E>>

    constructor ()
      ensures endpoints == [] && calls == []
    {
      endpoints := [];
      calls := [];
    }

    /** The indexer's getter: out of range throws. */
    method Get(index: int) returns (r: Outcome<E>)
      ensures 0 <= index < |endpoints| ==> r == Returned(endpoints[index])
      ensures r.Threw? <==> !(0 <= index < |endpoints|)
    {
      if 0 <= index < |endpoints| {
        r := Returned(endpoints[index]);
      } else {
        r := Threw;
      }
    }

    /** The indexer's setter is not supported: it always throws and changes nothing. */
    method Set(index: int, item: E) returns (r: Outcome<()>)
      ensures r == Threw
    {
      r := Threw;
    }

    /** `CopyTo` is not supported either. */
    method CopyTo(arrayIndex: int) returns (r: Outcome<()>)
      ensures r == Threw
    {
      r := Threw;
    }

    /** `Get<T>`: the single endpoint satisfying `isT`, none, or a throw when there are several. */
    function GetSingle(isT: E -> bool): (r: Outcome<Option<E>>)
      reads this
      ensures r == Returned(None) <==> forall x :: x in endpoints ==> !isT(x)
      ensures r.Returned? && r.value.Some? ==>
                r.value.value in endpoints && isT(r.value.value) &&
                forall i :: 0 <= i < |endpoints| && isT(endpoints[i]) ==> endpoints[i] == r.value.value
      ensures r.Threw? <==> |Matching(endpoints, isT)| > 1
    {
      var m := Matching(endpoints, isT);
      if |m| == 0 then Returned(None)
      else if |m| == 1 then
        assert m[0] in m;
        assert forall i :: 0 <= i < |endpoints| && isT(endpoints[i]) ==> endpoints[i] in m;
        Returned(Some(m[0]))
      else
        assert m[0] in m;
        Threw
    }

    /** `GetAll<T>`: the matching endpoints in order. */
    function GetAll(isT: E -> bool): (r: seq<E>)
      reads this
      ensures forall x :: x in r <==> x in endpoints && isT(x)
      ensures |r| <= |endpoints|
    {
      MatchingLength(endpoints, isT);
      Matching(endpoints, isT)
    }

    /** `Add`: the endpoint is initialised, and appended only when that returns. */
    method Add(item: E, initFails: bool) returns (r: Outcome<()>)
      modifies this
      ensures calls == old(calls) + [Initialize(item)]
      ensures r.Threw? <==> initFails
      ensures endpoints == if initFails then old(endpoints) else old(endpoints) + [item]
    {
      calls := calls + [Initialize(item)];
      if initFails {
        return Threw;
      }
      endpoints := endpoints + [item];
      r := Returned(());
    }

    /** `Remove(item)`: drops the first equal endpoint and disposes it, if there was one. */
    method Remove(item: E) returns (removed: bool)
      modifies this
      ensures removed <==> item in old(endpoints)
      ensures endpoints == RemoveFirst(old(endpoints), item)
      ensures calls == old(calls) + (if removed then [DisposeOf(item)] else [])
    {
      removed := item in endpoints;
      endpoints := RemoveFirst(endpoints, item);
      if removed {
        calls := calls + [DisposeOf(item)];
      }
    }

    /** `Remove<T>`: removes, and disposes, every endpoint satisfying `isT`. */
    method RemoveAll(isT: E -> bool)
      modifies this
      ensures endpoints == Unmatching(old(endpoints), isT)
      ensures calls == old(calls) + Disposals(Matching(old(endpoints), isT))
    {
      ghost var s := endpoints;
      var toRemove := GetAll(isT);
      var k := 0;
      WithoutNone(s, isT);
      while k < |toRemove|
        invariant 0 <= k <= |toRemove|
        invariant endpoints == Without(s, isT, k)
        invariant calls == old(calls) + Disposals(toRemove[..k])
        decreases |toRemove| - k
      {
        WithoutStep(s, isT, k);
        var removed := Remove(toRemove[k]);
        assert toRemove[..k + 1][..k] == toRemove[..k];
        k := k + 1;
      }
      WithoutAll(s, isT);
      assert toRemove[..k] == toRemove;
    }

    /** `Clear`: disposes every endpoint in order, then empties the list. */
    method Clear()
      modifies this
      ensures calls == old(calls) + Disposals(old(endpoints))
      ensures endpoints == []
    {
      DisposeEach();
      endpoints := [];
    }

    /** `Insert`: no initialisation; an index out of range throws. */
    method Insert(index: int, item: E) returns (r: Outcome<()>)
      modifies this
      ensures r.Threw? <==> !(0 <= index <= |old(endpoints)|)
      ensures endpoints == if r.Threw? then old(endpoints)
                           else old(endpoints)[..index] + [item] + old(endpoints)[index..]
      ensures calls == old(calls)
    {
      if !(0 <= index <= |endpoints|) {
        return Threw;
      }
      endpoints := endpoints[..index] + [item] + endpoints[index..];
      r := Returned(());
    }

    /** `RemoveAt`: disposes the endpoint at `index`, then removes it; out of range throws. */
    method RemoveAt(index: int) returns (r: Outcome<()>)
      modifies this
      ensures r.Threw? <==> !(0 <= index < |old(endpoints)|)
      ensures r.Threw? ==> endpoints == old(endpoints) && calls == old(calls)
      ensures r.Returned? ==>
                endpoints == old(endpoints)[..index] + old(endpoints)[index + 1..] &&
                calls == old(calls) + [DisposeOf(old(endpoints)[index])]
    {
      if !(0 <= index < |endpoints|) {
        return Threw;
      }
      calls := calls + [DisposeOf(endpoints[index])];
      endpoints := endpoints[..index] + endpoints[index + 1..];
      r := Returned(());
    }

    /** `Dispose`: disposes every endpoint in order and keeps the list. */
    method DisposeEach()
      modifies this
      ensures calls == old(calls) + Disposals(endpoints)
      ensures endpoints == old(endpoints)
    {
      var i := 0;
      while i < |endpoints|
        invariant 0 <= i <= |endpoints| && endpoints == old(endpoints)
        invariant calls == old(calls) + Disposals(endpoints[..i])
        decreases |endpoints| - i
      {
        assert endpoints[..i + 1][..i] == endpoints[..i];
        calls := calls + [DisposeOf(endpoints[i])];
        i := i + 1;
      }
      assert endpoints[..i] == endpoints;
    }
  }

  lemma {:induction false} MatchingLength<E(!new)>(s: seq<E>, isT: E -> bool)
    ensures |Matching(s, isT)| <= |s|
    decreases |s|
  {
    if s != [] {
      MatchingLength(s[1..], isT);
    }
  }

  // ---------------------------------------------------------------------
  // The logger and its contexts

  class Logger<E(==,!new)> {
    var threshold: Severity
    var warningCount: nat
    var errorCount: nat
    var fatalCount: nat
    var contextStack: seq<LoggerContext<E>>
    const endpoints: EndpointCollection<E>

    /** A new logger shows `Info` and above, with no endpoint and no context. */
    constructor ()
      ensures threshold == Info && warningCount == 0 && errorCount == 0 && fatalCount == 0
      ensures contextStack == [] && fresh(endpoints)
      ensures endpoints.endpoints == [] && endpoints.calls == []
    {
      threshold := Info;
      warningCount, errorCount, fatalCount := 0, 0, 0;
      contextStack := [];
      endpoints := new EndpointCollection();
    }

    /** The severities of the open contexts, outermost first. */
    ghost function Open(): (r: seq<Severity>)
      reads this
      ensures |r| == |contextStack| && forall i :: 0 <= i < |r| ==> r[i] == contextStack[i].severity
    {
      seq(|contextStack|, i requires 0 <= i < |contextStack| reads this => contextStack[i].severity)
    }

    /** `IsSeverityVisible`: the threshold test, then the open contexts from the innermost out. */
    method IsSeverityVisible(severity: Severity) returns (b: bool)
      ensures b == Shown(threshold, Open(), severity)
    {
      if severity < threshold {
        return false;
      }
      var i := |contextStack| - 1;
      while i >= 0
        invariant -1 <= i < |contextStack|
        invariant forall j :: i < j < |contextStack| ==> contextStack[j].severity >= threshold
        decreases i
      {
        if contextStack[i].severity < threshold {
          return false;
        }
        i := i - 1;
      }
      b := true;
    }

    /**
     * `Log`: a shown message bumps the counter of its severity, has its line
     * breaks normalised to `newLine`, and goes to the endpoints in order at
     * the depth of the open contexts; the first endpoint that throws ends
     * the dispatch and the exception is swallowed. A hidden message changes
     * nothing.
     */
    method Log(severity: Severity, message: string, newLine: string, fails: E -> bool)
      modifies this, endpoints
      ensures threshold == old(threshold) && contextStack == old(contextStack)
      ensures endpoints.endpoints == old(endpoints.endpoints)
      ensures var shown := Shown(old(threshold), old(Open()), severity);
              errorCount == old(errorCount) + (if shown && severity == Error then 1 else 0) &&
              warningCount == old(warningCount) + (if shown && severity == Warning then 1 else 0) &&
              fatalCount == old(fatalCount) + (if shown && severity == Fatal then 1 else 0)
      ensures var eps := old(endpoints.endpoints);
              var line := LogLine(severity, StringUtility.NormalizeLF(message, None, newLine), |old(contextStack)|);
              endpoints.calls == old(endpoints.calls) +
                (if Shown(old(threshold), old(Open()), severity) then Deliveries(eps[..Reach(eps, fails)], line) else [])
    {
      var visible := IsSeverityVisible(severity);
      if !visible {
        return;
      }
      if severity == Error {
        errorCount := errorCount + 1;
      } else if severity == Warning {
        warningCount := warningCount + 1;
      } else if severity == Fatal {
        fatalCount := fatalCount + 1;
      }
      var normalized := StringUtility.NormalizeLF(message, None, newLine);
      DispatchLogLine(LogLine(severity, normalized, |contextStack|), fails);
    }

    /** `DispatchLogLine`: each endpoint in order, until one throws. */
    method DispatchLogLine(line: LogLine, fails: E -> bool)
      modifies endpoints
      ensures endpoints.endpoints == old(endpoints.endpoints)
      ensures var eps := old(endpoints.endpoints);
              endpoints.calls == old(endpoints.calls) + Deliveries(eps[..Reach(eps, fails)], line)
    {
      var eps := endpoints.endpoints;
      var i := 0;
      while i < |eps|
        invariant 0 <= i <= |eps| && endpoints.endpoints == eps
        invariant forall j :: 0 <= j < i ==> !fails(eps[j])
        invariant endpoints.calls == old(endpoints.calls) + Deliveries(eps[..i], line)
        decreases |eps| - i
      {
        assert eps[..i + 1][..i] == eps[..i];
        endpoints.calls := endpoints.calls + [Receive(eps[i], line)];
        if fails(eps[i]) {
          assert Reach(eps, fails) == i + 1;
          return;
        }
        i := i + 1;
      }
      assert Reach(eps, fails) == |eps|;
      assert eps[..i] == eps;
    }

    /** `Context`: logs the message, then opens a context of that severity. */
    method Context(severity: Severity, message: string, newLine: string, fails: E -> bool)
      returns (ctx: LoggerContext<E>)
      modifies this, endpoints
      ensures fresh(ctx) && ctx.severity == severity && ctx.logger == this && ctx.footer == None
      ensures contextStack == old(contextStack) + [ctx]
      ensures threshold == old(threshold) && endpoints.endpoints == old(endpoints.endpoints)
      ensures var shown := Shown(old(threshold), old(Open()), severity);
              errorCount == old(errorCount) + (if shown && severity == Error then 1 else 0) &&
              warningCount == old(warningCount) + (if shown && severity == Warning then 1 else 0) &&
              fatalCount == old(fatalCount) + (if shown && severity == Fatal then 1 else 0)
      ensures var eps := old(endpoints.endpoints);
              var line := LogLine(severity, StringUtility.NormalizeLF(message, None, newLine), |old(contextStack)|);
              endpoints.calls == old(endpoints.calls) +
                (if Shown(old(threshold), old(Open()), severity) then Deliveries(eps[..Reach(eps, fails)], line) else [])
    {
      Log(severity, message, newLine, fails);
      ctx := new LoggerContext(severity, this);
    }

    /** `PushContext`. */
    method PushContext(context: LoggerContext<E>)
      modifies this
      ensures contextStack == old(contextStack) + [context]
      ensures threshold == old(threshold) && warningCount == old(warningCount) &&
              errorCount == old(errorCount) && fatalCount == old(fatalCount)
    {
      contextStack := contextStack + [context];
    }

    /** `PopContext`: drops the innermost context; an empty stack throws. */
    method PopContext() returns (r: Outcome<()>)
      modifies this
      ensures r.Threw? <==> old(contextStack) == []
      ensures contextStack == if r.Threw? then old(contextStack) else old(contextStack)[..|old(contextStack)| - 1]
      ensures threshold == old(threshold) && warningCount == old(warningCount) &&
              errorCount == old(errorCount) && fatalCount == old(fatalCount)
    {
      if contextStack == [] {
        return Threw;
      }
      contextStack := contextStack[..|contextStack| - 1];
      r := Returned(());
    }

    /** `Dispose`: disposes the endpoints. */
    method Dispose()
      modifies endpoints
      ensures endpoints.calls == old(endpoints.calls) + Disposals(endpoints.endpoints)
      ensures endpoints.endpoints == old(endpoints.endpoints)
    {
      endpoints.DisposeEach();
    }
  }

  /** `LoggerContext`: an open scope of a logger, with an optional footer. */
  class LoggerContext<E(==,!new)> {
    const severity: Severity
    var footer: Option<string>
    const logger: Logger<E>

    /** Opening a context pushes it onto its logger's stack. */
    constructor (severity: Severity, logger: Logger<E>)
      modifies logger
      ensures this.severity == severity && this.logger == logger && footer == None
      ensures logger.contextStack == old(logger.contextStack) + [this]
      ensures logger.threshold == old(logger.threshold)
      ensures logger.warningCount == old(logger.warningCount) && logger.errorCount == old(logger.errorCount) &&
              logger.fatalCount == old(logger.fatalCount)
    {
      this.severity := severity;
      this.logger := logger;
      footer := None;
      new;
      logger.PushContext(this);
    }

    /** `WithFooter`: sets the footer once; a second footer or a null message throws. */
    method WithFooter(message: Option<string>) returns (r: Outcome<()>)
      modifies this
      ensures r.Threw? <==> old(footer).Some? || message.None?
      ensures footer == if r.Threw? then old(footer) else message
    {
      if footer.Some? || message.None? {
        return Threw;
      }
      footer := message;
      r := Returned(());
    }

    /**
     * `Dispose`: logs the footer, if one was set, at the context's severity
     * while the context is still open, then pops the innermost context.
     */
    method Dispose(newLine: string, fails: E -> bool) returns (r: Outcome<()>)
      modifies logger, logger.endpoints
      ensures r.Threw? <==> old(logger.contextStack) == []
      ensures logger.contextStack == if r.Threw? then old(logger.contextStack)
                                     else old(logger.contextStack)[..|old(logger.contextStack)| - 1]
      ensures logger.threshold == old(logger.threshold)
      ensures logger.endpoints.endpoints == old(logger.endpoints.endpoints)
      ensures var shown := footer.Some? && Shown(old(logger.threshold), old(logger.Open()), severity);
              logger.errorCount == old(logger.errorCount) + (if shown && severity == Error then 1 else 0) &&
              logger.warningCount == old(logger.warningCount) + (if shown && severity == Warning then 1 else 0) &&
              logger.fatalCount == old(logger.fatalCount) + (if shown && severity == Fatal then 1 else 0)
      ensures footer.None? ==> logger.endpoints.calls == old(logger.endpoints.calls)
      ensures footer.Some? ==>
                var eps := old(logger.endpoints.endpoints);
                var line := LogLine(severity, StringUtility.NormalizeLF(footer.value, None, newLine),
                                    |old(logger.contextStack)|);
                logger.endpoints.calls == old(logger.endpoints.calls) +
                  (if Shown(old(logger.threshold), old(logger.Open()), severity)
                   then Deliveries(eps[..Reach(eps, fails)], line) else [])
    {
      if footer.Some? {
        logger.Log(severity, footer.value, newLine, fails);
      }
      r := logger.PopContext();
    }
  }
}
