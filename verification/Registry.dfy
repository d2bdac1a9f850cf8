/** The task registry of the lifecycle manager: commTaskCtxMap and its mutex-guarded operations. */
module Registry {
  import opened Basics

  const COMPOSITORS := "manageCompositors"

  /** The registry after an operation on one name, whatever it maps names to. */
  function Added<T>(reg: map<string, T>, name: string, x: T): map<string, T> {
    if name in reg || name == "" then reg else reg[name := x]
  }

  function Removed<T>(reg: map<string, T>, name: string): map<string, T> {
    if name == "" then reg else reg - {name}
  }

  class CommTaskContext {
    const appName: string
    var cancelled: bool

    constructor (appName: string)
      ensures this.appName == appName && !cancelled
    {
      this.appName := appName;
      cancelled := false;
    }

    method Cancel()
      modifies this
      ensures cancelled
    {
      cancelled := true;
    }
  }

  class CommTaskMap {
    var entries: map<string, CommTaskContext>

    /** Every context is filed under its own, non-empty name; so no context is filed twice. */
    ghost predicate Valid()
      reads this
    {
      "" !in entries && forall n :: n in entries ==> entries[n].appName == n
    }

    constructor ()
      ensures Valid() && entries == map[]
    {
      entries := map[];
    }

    /** updateCommTaskCtxMap: a name that is taken, or empty, is refused. */
    method Update(appName: string) returns (r: Option<CommTaskContext>)
      requires Valid()
      modifies this
      ensures Valid()
      ensures r.None? <==> appName in old(entries) || appName == ""
      ensures r.Some? ==> fresh(r.value) && r.value.appName == appName && !r.value.cancelled
      ensures entries == if r.Some? then Added(old(entries), appName, r.value) else old(entries)
    {
      if appName in entries || appName == "" {
        return None;
      }
      var ctx := new CommTaskContext(appName);
      entries := entries[appName := ctx];
      return Some(ctx);
    }

    /** deleteCommTask */
    method Delete(appName: string) returns (ok: bool)
      requires Valid()
      modifies this
      ensures Valid() && (ok <==> appName in old(entries))
      ensures entries == Removed(old(entries), appName)
    {
      if appName !in entries || appName == "" {
        return false;
      }
      entries := entries - {appName};
      return true;
    }

    /** cancelCommTaskCtx: the task filed under that name and no other. */
    method CancelOne(appName: string) returns (ok: bool)
      requires Valid()
      modifies entries.Values
      ensures Valid() && entries == old(entries) && (ok <==> appName in entries)
      ensures forall n :: n in entries ==> entries[n].cancelled == (n == appName || old(entries[n].cancelled))
    {
      if appName !in entries { return false; }
      entries[appName].Cancel();
      return true;
    }

    /** CancelAllCommTaskCtxExceptCompositors; Go visits the entries in any order. */
    method CancelAllExceptCompositors()
      requires Valid()
      modifies entries.Values
      ensures Valid() && entries == old(entries)
      ensures forall n :: n in entries ==>
        entries[n].cancelled == (n != "manageCompositors" || old(entries[n].cancelled))
    {
      var rest := entries.Keys;
      while rest != {}
        invariant rest <= entries.Keys
        invariant Valid() && entries == old(entries)
        invariant forall n :: n in entries && n !in rest ==>
          entries[n].cancelled == (n != COMPOSITORS || old(entries[n].cancelled))
        invariant forall n :: n in rest ==> entries[n].cancelled == old(entries[n].cancelled)
        decreases rest
      {
        var n :| n in rest;
        rest := rest - {n};
        if n != COMPOSITORS {
          entries[n].Cancel();
        }
      }
    }
  }
}
