/** Well-nested pushes and pops of Flask contexts: the stack discipline they keep, over every run. */
module ContextStack {
  import opened Results
  import opened Contexts

  /** A push that has not been popped. A request frame remembers the application context pushed just before it. */
  datatype Frame = AppFrame(app: AppContext) | RequestFrame(request: RequestContext, implicit: AppContext?)

  type Stack = seq<Frame>

  /** The topmost application context. */
  function CurrentApp(stack: Stack): AppContext? {
    if stack == [] then null
    else if stack[|stack| - 1].AppFrame? then stack[|stack| - 1].app
    else CurrentApp(stack[..|stack| - 1])
  }

  function CurrentRequest(stack: Stack): RequestContext? {
    if stack == [] then null
    else if stack[|stack| - 1].RequestFrame? then stack[|stack| - 1].request
    else CurrentRequest(stack[..|stack| - 1])
  }

  /** The tokens a context holds: one for each of its frames, restoring what was current below it. */
  function AppTokens(stack: Stack, c: AppContext): seq<AppContext?> {
    if stack == [] then []
    else
      var rest, top := stack[..|stack| - 1], stack[|stack| - 1];
      if top == AppFrame(c) then AppTokens(rest, c) + [CurrentApp(rest)] else AppTokens(rest, c)
  }

  function RequestTokens(stack: Stack, r: RequestContext): seq<(RequestContext?, AppContext?)> {
    if stack == [] then []
    else
      var rest, top := stack[..|stack| - 1], stack[|stack| - 1];
      if top.RequestFrame? && top.request == r
      then RequestTokens(rest, r) + [(CurrentRequest(rest), top.implicit)]
      else RequestTokens(rest, r)
  }

  /** An application context pushed with a request lies right below it. */
  ghost predicate Paired(stack: Stack) {
    forall i :: 0 <= i < |stack| && stack[i].RequestFrame? && stack[i].implicit != null ==>
      i > 0 && stack[i - 1] == AppFrame(stack[i].implicit)
  }

  lemma PushFacts(stack: Stack, f: Frame)
    ensures (stack + [f])[..|stack|] == stack && (stack + [f])[|stack|] == f
    ensures CurrentApp(stack + [f]) == if f.AppFrame? then f.app else CurrentApp(stack)
    ensures CurrentRequest(stack + [f]) == if f.RequestFrame? then f.request else CurrentRequest(stack)
    ensures forall c :: AppTokens(stack + [f], c)
                     == AppTokens(stack, c) + if f == AppFrame(c) then [CurrentApp(stack)] else []
    ensures forall r :: RequestTokens(stack + [f], r)
                     == RequestTokens(stack, r)
                        + if f.RequestFrame? && f.request == r then [(CurrentRequest(stack), f.implicit)] else []
  {
  }

  /** A `with` statement over a context, what happens inside, and which teardown functions raise. `WithCurrent` pushes
      once more whatever application context is active, which may have come with a request. */
  datatype Block =
    | WithApp(app: AppContext, body: seq<Block>, raises: bool)
    | WithCurrent(body: seq<Block>, raises: bool)
    | WithRequest(request: RequestContext, body: seq<Block>, raises: bool, appRaises: bool)

  class Worker {
    const vars: Variables
    ghost var stack: Stack
    ghost var apps: set<AppContext>
    ghost var requests: set<RequestContext>

    ghost function Repr(): set<object>
      reads this
    {
      {this, vars} + (set c | c in apps :: c as object) + (set r | r in requests :: r as object)
    }

    /** The variables show the tops of the stack, and every context holds the tokens of its frames. */
    ghost predicate Valid()
      reads this, Repr()
    {
      && Paired(stack)
      && vars.app == CurrentApp(stack) && vars.request == CurrentRequest(stack)
      && (forall f :: f in stack ==> if f.AppFrame? then f.app in apps else f.request in requests)
      && (forall c :: c in apps ==> c.tokens == AppTokens(stack, c) && c.Counted())
      && (forall r :: r in requests ==> r.tokens == RequestTokens(stack, r) && r.Counted())
    }

    constructor (ghost apps: set<AppContext>, ghost requests: set<RequestContext>)
      requires forall c :: c in apps ==> c.tokens == [] && c.Counted()
      requires forall r :: r in requests ==> r.tokens == [] && r.Counted()
      ensures Valid() && stack == [] && this.apps == apps && this.requests == requests && fresh(vars)
    {
      vars := new Variables();
      stack := [];
      this.apps, this.requests := apps, requests;
    }

    method PushApp(c: AppContext)
      requires Valid() && c in apps
      modifies this`stack, c, vars
      ensures Valid() && stack == old(stack) + [AppFrame(c)]
      ensures c.torn == old(c.torn)
    {
      PushFacts(stack, AppFrame(c));
      c.Push(vars);
      stack := stack + [AppFrame(c)];
    }

    /** Popping the top context restores both variables, also when teardown raises; it is never the wrong one. */
    method PopApp(c: AppContext, raises: bool) returns (outcome: Outcome)
      requires Valid() && stack != [] && stack[|stack| - 1] == AppFrame(c)
      modifies this`stack, c, vars
      ensures Valid() && stack == old(stack[..|stack| - 1])
      ensures outcome == if raises && |old(c.tokens)| == 1 then Fail(TeardownError) else Pass
      ensures c.torn == old(c.torn) + if |old(c.tokens)| == 1 then 1 else 0
    {
      ghost var rest := stack[..|stack| - 1];
      assert stack == rest + [AppFrame(c)];
      PushFacts(rest, AppFrame(c));
      outcome := c.Pop(vars, raises);
      stack := rest;
    }

    method PushRequest(r: RequestContext, ghost known: set<AppContext>) returns (ghost implicit: AppContext?)
      requires Valid() && r in requests && known <= apps
      modifies this`stack, this`apps, r, vars
      ensures Valid() && stack == old(stack) + FramesOf(r, implicit)
      ensures implicit == null <==> old(vars.app != null && vars.app.application == r.application)
      ensures implicit != null ==> fresh(implicit) && implicit.application == r.application && implicit.torn == 0
      ensures apps == old(apps) + (if implicit == null then {} else {implicit})
      ensures r.torn == old(r.torn) && |r.tokens| == |old(r.tokens)| + 1
      ensures implicit != null ==> |implicit.tokens| == 1
      ensures Around(known) == old(Around(known)).PushRequest(r)
    {
      hide CurrentApp, CurrentRequest, AppTokens, RequestTokens, Paired, FramesOf;
      ghost var before := stack;
      var appCtx := r.Push(vars);
      implicit := appCtx;
      RequestFacts(before, r, implicit);
      if implicit != null {
        FreshTokens(before, apps, implicit);
        apps := apps + {implicit};
      }
      stack := before + FramesOf(r, implicit);
    }

    method PopRequest(r: RequestContext, raises: bool, appRaises: bool, ghost implicit: AppContext?,
                      ghost below: Stack) returns (outcome: Outcome)
      requires Valid() && stack == below + FramesOf(r, implicit)
      modifies this`stack, r, vars
      modifies if implicit == null then {} else {implicit}
      ensures Valid() && stack == below
      ensures outcome == if (raises && |old(r.tokens)| == 1)
                            || (implicit != null && appRaises && |old(implicit.tokens)| == 1)
                         then Fail(TeardownError) else Pass
      ensures r.torn == old(r.torn) + if |old(r.tokens)| == 1 then 1 else 0
      ensures implicit != null ==>
                implicit.torn == old(implicit.torn) + if |old(implicit.tokens)| == 1 then 1 else 0
    {
      hide CurrentApp, CurrentRequest, AppTokens, RequestTokens, Paired, FramesOf;
      RequestFacts(below, r, implicit);
      assert RequestFrame(r, implicit) in stack && (implicit != null ==> AppFrame(implicit) in stack);
      outcome := r.Pop(vars, raises, appRaises);
      stack := below;
    }

    /** What decides how blocks over the known contexts end: which of these are active, and for which application. */
    ghost function Around(known: set<AppContext>): Env
      reads this, vars, vars.app, known, requests
    {
      Env(set c | c in known && c.tokens != [], set r | r in requests && r.tokens != [],
          if vars.app == null then None else Some(vars.app.application))
    }

    /** A `with` block: pushes, runs the body up to its first exception, and pops in any case. Whatever is pushed
        inside, every variable and every context is back to what it was; the pop never finds the wrong context. It ends
        as `End` says, the teardown functions ran as often as `AppTears` and `RequestTears` say, once for every
        application context that was pushed with a request, and there are as many of those as `Implicits` says. */
    method Run(b: Block, ghost known: set<AppContext>) returns (outcome: Outcome)
      requires Valid() && known <= apps && Known(b, known, requests)
      modifies Repr()
      ensures Valid() && stack == old(stack) && old(apps) <= apps && requests == old(requests)
      ensures forall c :: c in apps && c !in old(apps) ==> fresh(c)
      ensures |apps| == |old(apps)| + Implicits(b, old(Around(known)))
      ensures vars.app == old(vars.app) && vars.request == old(vars.request)
      ensures forall c :: c in old(apps) ==>
                && c.tokens == old(c.tokens)
                && c.torn == old(c.torn) + if c in known then AppTears(b, old(Around(known)), c) else 0
      ensures forall r :: r in requests ==>
                r.tokens == old(r.tokens) && r.torn == old(r.torn) + RequestTears(b, old(Around(known)), r)
      ensures forall c :: c in apps && c !in old(apps) ==> c.tokens == [] && c.torn == 1
      ensures outcome == End(b, old(Around(known)))
      decreases b, 3
    {
      match b
      case WithApp(c, _, _) =>
        outcome := RunApp(b, c, known);
      case WithRequest(_, _, _, _) =>
        outcome := RunRequest(b, known);
      case WithCurrent(_, _) =>
        var c := vars.app;
        if c == null {
          return Fail(LookupError);
        }
        CurrentActive(stack, c);
        outcome := RunApp(b, c, known);
    }

    /** A block that pushes the application context `c`. */
    method RunApp(b: Block, c: AppContext, ghost known: set<AppContext>) returns (outcome: Outcome)
      requires Valid() && known <= apps && Known(b, known, requests) && !b.WithRequest? && c in apps
      requires if b.WithApp? then c == b.app else c == vars.app && c.tokens != []
      modifies Repr()
      ensures Valid() && stack == old(stack) && old(apps) <= apps && requests == old(requests)
      ensures forall c :: c in apps && c !in old(apps) ==> fresh(c)
      ensures |apps| == |old(apps)| + Implicits(b, old(Around(known)))
      ensures vars.app == old(vars.app) && vars.request == old(vars.request)
      ensures forall a :: a in old(apps) ==>
                && a.tokens == old(a.tokens)
                && a.torn == old(a.torn) + if a in known then AppTears(b, old(Around(known)), a) else 0
      ensures forall r :: r in requests ==>
                r.tokens == old(r.tokens) && r.torn == old(r.torn) + RequestTears(b, old(Around(known)), r)
      ensures forall a :: a in apps && a !in old(apps) ==> a.tokens == [] && a.torn == 1
      ensures outcome == End(b, old(Around(known)))
      decreases b, 1
    {
      hide CurrentApp, CurrentRequest, AppTokens, RequestTokens, Paired, FramesOf, BodyEnd, BodyAppTears;
      hide BodyRequestTears, BodyImplicits, AppContext.Counted, RequestContext.Counted, Known;
      ghost var before := Around(known);
      KnownParts(b, known, requests);
      PushFacts(stack, AppFrame(c));
      PushApp(c);
      ghost var inside := if b.WithApp? then before.Push(c) else before;
      assert Around(known) == inside;
      outcome := RunBody(b, known);
      var popped := PopApp(c, b.raises);
      if popped.Fail? {
        outcome := popped;
      }
    }

    method RunRequest(b: Block, ghost known: set<AppContext>) returns (outcome: Outcome)
      requires Valid() && known <= apps && Known(b, known, requests) && b.WithRequest?
      modifies Repr()
      ensures Valid() && stack == old(stack) && old(apps) <= apps && requests == old(requests)
      ensures forall c :: c in apps && c !in old(apps) ==> fresh(c)
      ensures |apps| == |old(apps)| + Implicits(b, old(Around(known)))
      ensures vars.app == old(vars.app) && vars.request == old(vars.request)
      ensures forall c :: c in old(apps) ==>
                && c.tokens == old(c.tokens)
                && c.torn == old(c.torn) + if c in known then AppTears(b, old(Around(known)), c) else 0
      ensures forall r :: r in requests ==>
                r.tokens == old(r.tokens) && r.torn == old(r.torn) + RequestTears(b, old(Around(known)), r)
      ensures forall c :: c in apps && c !in old(apps) ==> c.tokens == [] && c.torn == 1
      ensures outcome == End(b, old(Around(known)))
      decreases b, 2
    {
      hide CurrentApp, CurrentRequest, AppTokens, RequestTokens, Paired, FramesOf, BodyEnd, BodyAppTears;
      hide BodyRequestTears, BodyImplicits, AppContext.Counted, RequestContext.Counted, Known;
      ghost var below := stack;
      ghost var implicit;
      outcome, implicit := PushAndRun(b, known);
      RequestFacts(below, b.request, implicit);
      var popped := PopRequest(b.request, b.raises, b.appRaises, implicit, below);
      if popped.Fail? {
        outcome := popped;
      }
    }

    /** A request block up to its pop. */
    method PushAndRun(b: Block, ghost known: set<AppContext>) returns (outcome: Outcome, ghost implicit: AppContext?)
      requires Valid() && known <= apps && Known(b, known, requests) && b.WithRequest?
      modifies Repr()
      ensures Valid() && stack == old(stack) + FramesOf(b.request, implicit) && old(apps) <= apps
      ensures requests == old(requests) && forall c :: c in apps && c !in old(apps) ==> fresh(c)
      ensures implicit == null <==> old(Around(known)).current == Some(b.request.application)
      ensures implicit != null ==> implicit in apps && fresh(implicit) && |implicit.tokens| == 1 && implicit.torn == 0
      ensures |apps| == |old(apps)| + Implicits(b, old(Around(known)))
      ensures forall c :: c in old(apps) ==>
                && c.tokens == old(c.tokens)
                && c.torn == old(c.torn) + if c in known then AppTears(b, old(Around(known)), c) else 0
      ensures forall r :: r in requests && r != b.request ==>
                r.tokens == old(r.tokens) && r.torn == old(r.torn) + RequestTears(b, old(Around(known)), r)
      ensures |b.request.tokens| == |old(b.request.tokens)| + 1
      ensures b.request.torn + (if old(b.request.tokens) == [] then 1 else 0)
           == old(b.request.torn) + RequestTears(b, old(Around(known)), b.request)
      ensures forall c :: c in apps && c !in old(apps) && c != implicit ==> c.tokens == [] && c.torn == 1
      ensures outcome == BodyEnd(b.body, old(Around(known)).PushRequest(b.request))
      decreases b, 1
    {
      hide CurrentApp, CurrentRequest, AppTokens, RequestTokens, Paired, FramesOf, BodyEnd, BodyAppTears;
      hide BodyRequestTears, BodyImplicits, AppContext.Counted, RequestContext.Counted, Known, End, AppTears;
      hide RequestTears, Implicits, Env.PushRequest;
      RequestBlock(b, Around(known));
      KnownParts(b, known, requests);
      implicit := PushRequest(b.request, known);
      outcome := RunBody(b, known);
    }

    /** The body of a block. */
    method RunBody(b: Block, ghost known: set<AppContext>) returns (outcome: Outcome)
      requires Valid() && known <= apps && forall i :: 0 <= i < |b.body| ==> Known(b.body[i], known, requests)
      modifies Repr()
      ensures Valid() && stack == old(stack) && old(apps) <= apps && requests == old(requests)
      ensures forall c :: c in apps && c !in old(apps) ==> fresh(c)
      ensures |apps| == |old(apps)| + BodyImplicits(b.body, old(Around(known)))
      ensures forall c :: c in old(apps) ==>
                && c.tokens == old(c.tokens)
                && c.torn == old(c.torn) + if c in known then BodyAppTears(b.body, old(Around(known)), c) else 0
      ensures forall r :: r in requests ==>
                r.tokens == old(r.tokens) && r.torn == old(r.torn) + BodyRequestTears(b.body, old(Around(known)), r)
      ensures forall c :: c in apps && c !in old(apps) ==> c.tokens == [] && c.torn == 1
      ensures outcome == BodyEnd(b.body, old(Around(known)))
      decreases b, 0
    {
      hide CurrentApp, CurrentRequest, AppTokens, RequestTokens, Paired, Known, AppContext.Counted;
      hide RequestContext.Counted, End, AppTears, RequestTears, Implicits, BodyEnd, BodyAppTears, BodyRequestTears;
      hide BodyImplicits;
      ghost var env := Around(known);
      assert b.body[0..] == b.body;
      for i := 0 to |b.body|
        invariant Valid() && stack == old(stack) && old(apps) <= apps && requests == old(requests)
        invariant (forall c :: c in apps && c !in old(apps) ==> fresh(c)) && Around(known) == env
        invariant |apps| + BodyImplicits(b.body[i..], env) == |old(apps)| + BodyImplicits(b.body, env)
        invariant forall c :: c in old(apps) ==> c.tokens == old(c.tokens)
        invariant forall c :: c in old(apps) - known ==> c.torn == old(c.torn)
        invariant forall c :: c in known ==>
                    c.torn + BodyAppTears(b.body[i..], env, c) == old(c.torn) + BodyAppTears(b.body, env, c)
        invariant forall r :: r in requests ==>
                    && r.tokens == old(r.tokens)
                    && r.torn + BodyRequestTears(b.body[i..], env, r) == old(r.torn) + BodyRequestTears(b.body, env, r)
        invariant forall c :: c in apps && c !in old(apps) ==> c.tokens == [] && c.torn == 1
        invariant BodyEnd(b.body, env) == BodyEnd(b.body[i..], env)
      {
        BodyStep(b.body, i, env);
        outcome := Run(b.body[i], known);
        if outcome.Fail? {
          return;
        }
      }
      assert b.body[|b.body|..] == [];
      BodyOver(env);
      return Pass;
    }
  }

  // ---------- how blocks end ----------

  /** The active contexts, and the application of the active application context. */
  datatype Env = Env(apps: set<AppContext>, requests: set<RequestContext>, current: Option<App>) {
    function Push(c: AppContext): Env {
      Env(apps + {c}, requests, Some(c.application))
    }

    function PushRequest(r: RequestContext): Env {
      Env(apps, requests + {r}, Some(r.application))
    }
  }

  /** How a block ends: with an exception of its body, unless one of a teardown function comes behind it. Teardown
      functions run for a context that was not active before, and for an application context pushed with a request. */
  function End(b: Block, env: Env): Outcome
    decreases b, 1
  {
    match b
    case WithApp(c, _, raises) =>
      if raises && c !in env.apps then Fail(TeardownError) else BodyEnd(b.body, env.Push(c))
    case WithCurrent(_, _) =>
      if env.current == None then Fail(LookupError) else BodyEnd(b.body, env)
    case WithRequest(r, _, raises, appRaises) =>
      if (raises && r !in env.requests) || (appRaises && env.current != Some(r.application)) then Fail(TeardownError)
      else BodyEnd(b.body, env.PushRequest(r))
  }

  /** How often the teardown functions of `c` run. */
  function AppTears(b: Block, env: Env, c: AppContext): nat
    decreases b, 1
  {
    match b
    case WithApp(a, _, _) =>
      BodyAppTears(b.body, env.Push(a), c) + if a == c && c !in env.apps then 1 else 0
    case WithCurrent(_, _) => if env.current == None then 0 else BodyAppTears(b.body, env, c)
    case WithRequest(r, _, _, _) => BodyAppTears(b.body, env.PushRequest(r), c)
  }

  function BodyAppTears(body: seq<Block>, env: Env, c: AppContext): nat
    decreases body, 0
  {
    if body == [] then 0
    else AppTears(body[0], env, c) + if End(body[0], env).Fail? then 0 else BodyAppTears(body[1..], env, c)
  }

  function RequestTears(b: Block, env: Env, q: RequestContext): nat
    decreases b, 1
  {
    match b
    case WithApp(a, _, _) => BodyRequestTears(b.body, env.Push(a), q)
    case WithCurrent(_, _) => if env.current == None then 0 else BodyRequestTears(b.body, env, q)
    case WithRequest(r, _, _, _) =>
      BodyRequestTears(b.body, env.PushRequest(r), q) + if r == q && q !in env.requests then 1 else 0
  }

  function BodyRequestTears(body: seq<Block>, env: Env, q: RequestContext): nat
    decreases body, 0
  {
    if body == [] then 0
    else RequestTears(body[0], env, q) + if End(body[0], env).Fail? then 0 else BodyRequestTears(body[1..], env, q)
  }

  /** How many application contexts are pushed with requests: one whenever the request's application is not the active
      one. */
  function Implicits(b: Block, env: Env): nat
    decreases b, 1
  {
    match b
    case WithApp(a, _, _) => BodyImplicits(b.body, env.Push(a))
    case WithCurrent(_, _) => if env.current == None then 0 else BodyImplicits(b.body, env)
    case WithRequest(r, _, _, _) =>
      BodyImplicits(b.body, env.PushRequest(r)) + if env.current == Some(r.application) then 0 else 1
  }

  function BodyImplicits(body: seq<Block>, env: Env): nat
    decreases body, 0
  {
    if body == [] then 0
    else Implicits(body[0], env) + if End(body[0], env).Fail? then 0 else BodyImplicits(body[1..], env)
  }

  lemma RequestBlock(b: Block, env: Env)
    requires b.WithRequest?
    ensures var inside, r := env.PushRequest(b.request), b.request;
            && Implicits(b, env)
               == BodyImplicits(b.body, inside) + (if env.current == Some(r.application) then 0 else 1)
            && (forall c :: AppTears(b, env, c) == BodyAppTears(b.body, inside, c))
            && (forall q :: q != r ==> RequestTears(b, env, q) == BodyRequestTears(b.body, inside, q))
            && RequestTears(b, env, r)
               == BodyRequestTears(b.body, inside, r) + (if r in env.requests then 0 else 1)
  {
  }

  /** One block of a body more. */
  lemma BodyStep(body: seq<Block>, i: nat, env: Env)
    requires i < |body|
    ensures var fails := End(body[i], env).Fail?;
            && BodyEnd(body[i..], env) == (if fails then End(body[i], env) else BodyEnd(body[i + 1..], env))
            && BodyImplicits(body[i..], env)
               == Implicits(body[i], env) + (if fails then 0 else BodyImplicits(body[i + 1..], env))
            && (forall c :: BodyAppTears(body[i..], env, c)
                         == AppTears(body[i], env, c) + if fails then 0 else BodyAppTears(body[i + 1..], env, c))
            && forall r :: BodyRequestTears(body[i..], env, r)
                        == RequestTears(body[i], env, r) + if fails then 0 else BodyRequestTears(body[i + 1..], env, r)
  {
    assert body[i..][1..] == body[i + 1..];
  }

  lemma BodyOver(env: Env)
    ensures BodyEnd([], env) == Pass && BodyImplicits([], env) == 0
    ensures forall c :: BodyAppTears([], env, c) == 0
    ensures forall r :: BodyRequestTears([], env, r) == 0
  {
  }

  function BodyEnd(body: seq<Block>, env: Env): Outcome
    decreases body, 0
  {
    if body == [] then Pass
    else if End(body[0], env).Fail? then End(body[0], env)
    else BodyEnd(body[1..], env)
  }

  /** Every context a block mentions is one of these. */
  ghost predicate Known(b: Block, apps: set<AppContext>, requests: set<RequestContext>)
    decreases b
  {
    && (b.WithApp? ==> b.app in apps) && (b.WithRequest? ==> b.request in requests)
    && forall i :: 0 <= i < |b.body| ==> Known(b.body[i], apps, requests)
  }

  lemma KnownParts(b: Block, apps: set<AppContext>, requests: set<RequestContext>)
    requires Known(b, apps, requests)
    ensures (b.WithApp? ==> b.app in apps) && (b.WithRequest? ==> b.request in requests)
    ensures forall i :: 0 <= i < |b.body| ==> Known(b.body[i], apps, requests)
  {
  }

  lemma {:induction false} KnownMore(b: Block, apps: set<AppContext>, more: set<AppContext>,
                                     requests: set<RequestContext>)
    requires Known(b, apps, requests) && apps <= more
    ensures Known(b, more, requests)
    decreases b
  {
    forall i | 0 <= i < |b.body|
      ensures Known(b.body[i], more, requests)
    {
      KnownMore(b.body[i], apps, more, requests);
    }
  }

  /** The current application context is in a frame, so it holds a token. */
  lemma {:induction false} CurrentActive(stack: Stack, c: AppContext)
    requires CurrentApp(stack) == c
    ensures AppFrame(c) in stack && AppTokens(stack, c) != []
  {
    if stack[|stack| - 1].RequestFrame? {
      CurrentActive(stack[..|stack| - 1], c);
    }
  }

  /** A whole request push seen at once. */
  lemma RequestFacts(stack: Stack, r: RequestContext, implicit: AppContext?)
    ensures var s := stack + FramesOf(r, implicit);
            && CurrentApp(s) == (if implicit == null then CurrentApp(stack) else implicit)
            && CurrentRequest(s) == r
            && (forall c :: AppTokens(s, c)
                         == AppTokens(stack, c) + if implicit == c then [CurrentApp(stack)] else [])
            && (forall q :: RequestTokens(s, q)
                         == RequestTokens(stack, q) + if q == r then [(CurrentRequest(stack), implicit)] else [])
            && (Paired(s) <==> Paired(stack))
            && forall f :: f in s <==>
                 f in stack || f == RequestFrame(r, implicit) || (implicit != null && f == AppFrame(implicit))
  {
    var under := stack + if implicit == null then [] else [AppFrame(implicit)];
    var s := stack + FramesOf(r, implicit);
    assert s == under + [RequestFrame(r, implicit)];
    if implicit != null {
      PushFacts(stack, AppFrame(implicit));
    } else {
      assert under == stack;
    }
    PushFacts(under, RequestFrame(r, implicit));
    hide CurrentApp, CurrentRequest, AppTokens, RequestTokens, Paired;
    PairedPush(stack, r, implicit);
  }

  lemma PairedPush(stack: Stack, r: RequestContext, implicit: AppContext?)
    ensures Paired(stack + FramesOf(r, implicit)) <==> Paired(stack)
  {
    var s := stack + FramesOf(r, implicit);
    assert forall i :: 0 <= i < |stack| ==> s[i] == stack[i];
  }

  function FramesOf(r: RequestContext, implicit: AppContext?): Stack {
    if implicit == null then [RequestFrame(r, null)] else [AppFrame(implicit), RequestFrame(r, implicit)]
  }

  /** A context that is in no frame holds no tokens. */
  lemma {:induction false} FreshTokens(stack: Stack, apps: set<AppContext>, c: AppContext)
    requires forall f :: f in stack && f.AppFrame? ==> f.app in apps
    requires c !in apps
    ensures AppTokens(stack, c) == []
  {
    if stack != [] {
      FreshTokens(stack[..|stack| - 1], apps, c);
      assert stack[|stack| - 1] in stack;
    }
  }
}
