/** The vocabulary shared by every mutation workflow: the abstract server
    outcome, the request a screen sends, and the trace of observable effects
    (toasts, cache invalidations, navigations, local state flips) that the
    screen emits while handling the outcome. */
module Effects {

  datatype Option<+T> = None | Some(value: T)

  /** What the server answered, as seen after `await response.json()`:
      success with the envelope's `data`, or failure with `error.message`. */
  datatype Outcome<+T> = Ok(data: T) | Err(message: string)

  /** JSON values that appear in the request bodies of the modelled screens. */
  datatype Json = JStr(s: string) | JBool(b: bool)

  datatype HttpMethod = GET | POST | PUT | DELETE

  /** One `fetch` call: method, path, URLSearchParams pairs (unencoded) and
      the JSON body's fields (`NoBody` when `fetch` gets no body). */
  datatype Request = Request(verb: HttpMethod, path: string, query: seq<(string, string)>, body: map<string, Json>)

  /** A client-cache key: either a literal path given to SWR's global
      `mutate(path)`, or the key of a data hook whose bound `mutate()` is called
      (the hook's own key is not part of this model). */
  datatype CacheKey = Path(path: string) | Hook(hook: string, slug: string)

  datatype Effect =
    | Send(request: Request)
    | ToastError(message: string)
    | ToastSuccess(textKey: string)  // translation key of the success text
    | Invalidate(cacheKey: CacheKey)
    | Push(path: string)             // router.push
    | Replace(path: string)          // router.replace
    | UpdateSession(name: Option<string>)  // next-auth session update (None: undefined)
    | SetLoading(on: bool)
    | ResetForm
    | CloseDialog

  const NoBody: map<string, Json> := map[]

  predicate IsNavigation(e: Effect) {
    e.Push? || e.Replace?
  }

  /** The trace invalidates no cache key and navigates nowhere: the shape
      every failure path has. */
  predicate Quiet(trace: seq<Effect>) {
    forall i :: 0 <= i < |trace| ==> !trace[i].Invalidate? && !IsNavigation(trace[i])
  }

  /** The requests a trace sends, in order. */
  function Requests(trace: seq<Effect>): (r: seq<Request>)
    ensures |r| <= |trace|
    ensures (forall i :: 0 <= i < |trace| ==> !trace[i].Send?) ==> r == []
  {
    if |trace| == 0 then []
    else (if trace[0].Send? then [trace[0].request] else []) + Requests(trace[1..])
  }

  /** The success toasts of a trace, in order. */
  function SuccessToasts(trace: seq<Effect>): (r: seq<string>)
    ensures |r| <= |trace|
  {
    if |trace| == 0 then []
    else (if trace[0].ToastSuccess? then [trace[0].textKey] else []) + SuccessToasts(trace[1..])
  }

  lemma {:induction false} RequestsAppend(a: seq<Effect>, b: seq<Effect>)
    ensures Requests(a + b) == Requests(a) + Requests(b)
    decreases |a|
  {
    if |a| == 0 {
      assert a + b == b;
    } else {
      assert (a + b)[0] == a[0];
      assert (a + b)[1..] == a[1..] + b;
      RequestsAppend(a[1..], b);
    }
  }

  lemma {:induction false} SuccessToastsAppend(a: seq<Effect>, b: seq<Effect>)
    ensures SuccessToasts(a + b) == SuccessToasts(a) + SuccessToasts(b)
    decreases |a|
  {
    if |a| == 0 {
      assert a + b == b;
    } else {
      assert (a + b)[0] == a[0];
      assert (a + b)[1..] == a[1..] + b;
      SuccessToastsAppend(a[1..], b);
    }
  }

  /** A request is in `Requests(trace)` exactly when some `Send` of the
      trace carries it. */
  lemma {:induction false} RequestsAreSends(trace: seq<Effect>)
    ensures forall q :: q in Requests(trace) <==> exists i :: 0 <= i < |trace| && trace[i].Send? && trace[i].request == q
    decreases |trace|
  {
    if |trace| > 0 {
      RequestsAreSends(trace[1..]);
      assert forall i :: 1 <= i < |trace| ==> trace[i] == trace[1..][i - 1];
      forall q | exists i :: 0 <= i < |trace| && trace[i].Send? && trace[i].request == q
        ensures q in Requests(trace)
      {
        var i :| 0 <= i < |trace| && trace[i].Send? && trace[i].request == q;
        if i > 0 {
          assert trace[1..][i - 1].Send? && trace[1..][i - 1].request == q;
        }
      }
    }
  }

  /** A text key is in `SuccessToasts(trace)` exactly when some success
      toast of the trace shows it. */
  lemma {:induction false} SuccessToastsAreToasts(trace: seq<Effect>)
    ensures forall k :: k in SuccessToasts(trace) <==>
              exists i :: 0 <= i < |trace| && trace[i].ToastSuccess? && trace[i].textKey == k
    decreases |trace|
  {
    if |trace| > 0 {
      SuccessToastsAreToasts(trace[1..]);
      assert forall i :: 1 <= i < |trace| ==> trace[i] == trace[1..][i - 1];
      forall k | exists i :: 0 <= i < |trace| && trace[i].ToastSuccess? && trace[i].textKey == k
        ensures k in SuccessToasts(trace)
      {
        var i :| 0 <= i < |trace| && trace[i].ToastSuccess? && trace[i].textKey == k;
        if i > 0 {
          assert trace[1..][i - 1].ToastSuccess? && trace[1..][i - 1].textKey == k;
        }
      }
    }
  }

  lemma QuietAppend(a: seq<Effect>, b: seq<Effect>)
    requires Quiet(a) && Quiet(b)
    ensures Quiet(a + b)
  {
  }

  /** Index of the first occurrence of `e` in the trace, when there is one. */
  function IndexOf(trace: seq<Effect>, e: Effect): (r: int)
    ensures -1 <= r < |trace|
    ensures r >= 0 ==> trace[r] == e && forall i :: 0 <= i < r ==> trace[i] != e
    ensures r == -1 ==> forall i :: 0 <= i < |trace| ==> trace[i] != e
  {
    if |trace| == 0 then -1
    else if trace[0] == e then 0
    else
      var k := IndexOf(trace[1..], e);
      if k == -1 then -1 else k + 1
  }

  /** The first occurrence is the position where the effect first appears. */
  lemma IndexOfAt(trace: seq<Effect>, e: Effect, i: nat)
    requires i < |trace| && trace[i] == e
    requires forall k :: 0 <= k < i ==> trace[k] != e
    ensures IndexOf(trace, e) == i
  {
  }

  /** Both effects occur and the first occurrence of `a` precedes that of `b`. */
  predicate Before(trace: seq<Effect>, a: Effect, b: Effect) {
    0 <= IndexOf(trace, a) < IndexOf(trace, b)
  }

  /** How every screen reports the server's answer: failure shows the
      server's message and stops there; success emits the screen's own
      success effects. */
  function Report<T>(outcome: Outcome<T>, success: seq<Effect>): seq<Effect> {
    if outcome.Err? then [ToastError(outcome.message)] else success
  }

  /** A failure report is a single error toast: it sends, invalidates,
      navigates and congratulates nothing. */
  lemma ReportFailure<T>(outcome: Outcome<T>, success: seq<Effect>)
    requires outcome.Err?
    ensures var r := Report(outcome, success);
      && r == [ToastError(outcome.message)] && Quiet(r)
      && Requests(r) == [] && SuccessToasts(r) == []
  {
    var r := Report(outcome, success);
    assert r[1..] == [];
  }

  /** A request followed by the report of its answer: exactly that request is
      sent; on failure nothing else but the error toast follows. */
  lemma SendThenReport<T>(request: Request, outcome: Outcome<T>, success: seq<Effect>)
    requires forall i :: 0 <= i < |success| ==> !success[i].Send?
    ensures var trace := [Send(request)] + Report(outcome, success);
      && Requests(trace) == [request]
      && trace[1..] == Report(outcome, success)
      && SuccessToasts(trace) == SuccessToasts(Report(outcome, success))
      && (outcome.Err? ==> Quiet(trace) && trace == [Send(request), ToastError(outcome.message)]
                             && SuccessToasts(trace) == [])
  {
    var r := Report(outcome, success);
    RequestsAppend([Send(request)], r);
    SuccessToastsAppend([Send(request)], r);
    assert [Send(request)][1..] == [];
    if outcome.Err? {
      ReportFailure(outcome, success);
    } else {
      assert Requests(success) == [];
    }
  }
}
