/** Flask's application and request contexts: pushing binds a context variable and keeps the token that restores it,
    popping gives the token back. */
module Contexts {
  import opened Results

  type App = nat

  /** The two context variables of one thread of control. */
  class Variables {
    var app: AppContext?
    var request: RequestContext?

    constructor ()
      ensures app == null && request == null
    {
      app, request := null, null;
    }
  }

  class AppContext {
    const application: App
    /** Each token is the value the variable had before its push. */
    var tokens: seq<AppContext?>

    /** How often the context was pushed while it was not active, and how often its teardown functions ran. */
    ghost var outermost: nat
    ghost var torn: nat

    constructor (application: App)
      ensures this.application == application && tokens == [] && outermost == 0 && torn == 0
    {
      this.application, tokens, outermost, torn := application, [], 0, 0;
    }

    ghost predicate Counted()
      reads this
    {
      outermost == torn + if tokens == [] then 0 else 1
    }

    method Push(vars: Variables)
      modifies this, vars`app
      ensures vars.app == this && tokens == old(tokens) + [old(vars.app)]
      ensures torn == old(torn) && (old(Counted()) ==> Counted())
    {
      outermost := if tokens == [] then outermost + 1 else outermost;
      tokens := tokens + [vars.app];
      vars.app := this;
    }

    /** `raises` tells whether the teardown functions raise, if they run. The variable is restored all the same. */
    method Pop(vars: Variables, raises: bool) returns (outcome: Outcome)
      modifies this, vars`app
      ensures old(vars.app == null) ==> outcome == Fail(LookupError) && vars.app == null && tokens == old(tokens)
      ensures old(vars.app != null && tokens == []) ==>
                outcome == Fail(IndexError) && vars.app == old(vars.app) && tokens == []
      ensures old(vars.app != null && tokens != []) ==>
                && tokens == old(tokens[..|tokens| - 1]) && vars.app == old(tokens[|tokens| - 1])
                && outcome == (if raises && |old(tokens)| == 1 then Fail(TeardownError)
                               else if old(vars.app) != this then Fail(AssertionError) else Pass)
                && (old(Counted()) ==> Counted())
      ensures outermost == old(outermost) && torn == old(torn) + if |old(tokens)| == 1 then 1 else 0
    {
      var raised := false;
      if |tokens| == 1 {
        torn := torn + 1;
        raised := raises;
      }
      var ctx := vars.app;
      if ctx == null {
        return Fail(LookupError);
      }
      if tokens == [] {
        return Fail(IndexError);
      }
      vars.app := tokens[|tokens| - 1];
      tokens := tokens[..|tokens| - 1];
      if raised {
        return Fail(TeardownError);
      }
      if ctx != this {
        return Fail(AssertionError);
      }
      return Pass;
    }
  }

  class RequestContext {
    const application: App
    /** The value before the push, and the application context that came with it, if any. */
    var tokens: seq<(RequestContext?, AppContext?)>

    ghost var outermost: nat
    ghost var torn: nat

    constructor (application: App)
      ensures this.application == application && tokens == [] && outermost == 0 && torn == 0
    {
      this.application, tokens, outermost, torn := application, [], 0, 0;
    }

    ghost predicate Counted()
      reads this
    {
      outermost == torn + if tokens == [] then 0 else 1
    }

    /** Pushing also pushes a new application context when none for this application is active. */
    method Push(vars: Variables) returns (appCtx: AppContext?)
      modifies this, vars
      ensures var needed := old(vars.app == null || vars.app.application != application);
              && (needed <==> appCtx != null)
              && (needed ==> fresh(appCtx) && appCtx.application == application && appCtx.tokens == [old(vars.app)]
                             && appCtx.Counted() && appCtx.torn == 0 && vars.app == appCtx)
              && (!needed ==> vars.app == old(vars.app))
      ensures vars.request == this && tokens == old(tokens) + [(old(vars.request), appCtx)]
      ensures torn == old(torn) && (old(Counted()) ==> Counted())
    {
      appCtx := vars.app;
      if appCtx == null || appCtx.application != application {
        appCtx := new AppContext(application);
        appCtx.Push(vars);
      } else {
        appCtx := null;
      }
      outermost := if tokens == [] then outermost + 1 else outermost;
      tokens := tokens + [(vars.request, appCtx)];
      vars.request := this;
    }

    /** The application context the next pop will pop as well. */
    ghost function Implicit(): AppContext?
      reads this
    {
      if tokens == [] then null else tokens[|tokens| - 1].1
    }

    /** `raises` and `appRaises` tell whether the teardown functions of the request, and of an application context
        popped with it, raise if they run. */
    method Pop(vars: Variables, raises: bool, appRaises: bool) returns (outcome: Outcome)
      modifies this, vars
      modifies if Implicit() == null then {} else {Implicit()}
      ensures old(vars.request == null) ==>
                outcome == Fail(LookupError) && vars.request == null && tokens == old(tokens)
      ensures old(vars.request != null && tokens == []) ==>
                outcome == Fail(IndexError) && vars.request == old(vars.request) && tokens == []
      ensures old(vars.request != null && tokens != []) ==>
                && tokens == old(tokens[..|tokens| - 1]) && vars.request == old(tokens[|tokens| - 1].0)
                && (old(Counted()) ==> Counted())
      ensures outermost == old(outermost) && torn == old(torn) + if |old(tokens)| == 1 then 1 else 0
      ensures old(vars.request != null && tokens != [] && Implicit() == null) ==>
                && vars.app == old(vars.app)
                && outcome == if old(vars.request) != this then Fail(AssertionError)
                              else if raises && |old(tokens)| == 1 then Fail(TeardownError) else Pass
      ensures old(vars.request != null && Implicit() != null && vars.app == null) ==>
                && outcome == Fail(LookupError) && vars.app == null
                && old(Implicit()).tokens == old(Implicit().tokens)
      ensures old(vars.request != null && Implicit() != null && vars.app != null && Implicit().tokens == []) ==>
                && outcome == Fail(IndexError) && vars.app == old(vars.app) && old(Implicit()).tokens == []
      ensures old(vars.request != null && Implicit() != null && vars.app != null && Implicit().tokens != []) ==>
                var a, n := old(Implicit()), old(|Implicit().tokens|);
                && a.tokens == old(Implicit().tokens[..n - 1]) && vars.app == old(Implicit().tokens[n - 1])
                && (old(Implicit().Counted()) ==> a.Counted())
                && a.torn == old(Implicit().torn) + (if n == 1 then 1 else 0)
                && outcome == if appRaises && n == 1 then Fail(TeardownError)
                              else if old(vars.app) != a || old(vars.request) != this then Fail(AssertionError)
                              else if raises && |old(tokens)| == 1 then Fail(TeardownError) else Pass
    {
      var raised := false;
      if |tokens| == 1 {
        torn := torn + 1;
        raised := raises;
      }
      var ctx := vars.request;
      if ctx == null {
        return Fail(LookupError);
      }
      if tokens == [] {
        return Fail(IndexError);
      }
      var (token, appCtx) := tokens[|tokens| - 1];
      tokens := tokens[..|tokens| - 1];
      vars.request := token;
      if appCtx != null {
        outcome := appCtx.Pop(vars, appRaises);
        if outcome.Fail? {
          return;
        }
      }
      if ctx != this {
        return Fail(AssertionError);
      }
      if raised {
        return Fail(TeardownError);
      }
      return Pass;
    }
  }
}
