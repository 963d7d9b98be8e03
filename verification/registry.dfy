/**
 Model of tpDcc/register.py: `register_class` binds an object under a name in the
 tpDcc module namespace and, unless told otherwise, remembers the name in the list
 stored under `_registered_classes`; `cleanup` unbinds every remembered name and
 then the list itself.

 The list lives in the same namespace as the classes, so the model keeps ONE map
 from names to objects. `Bindings` and `Tracked` give the two views a caller
 thinks in: the bound names other than the list, and the list of tracked names.
 */
module Registry {
  import opened Wrappers

  /** Name of the namespace entry that holds the tracked names. */
  const RegisterAttr: string := "_registered_classes"

  /** An object bound in the namespace: a Python list of names, or any other
      object (a class, a function, a sub-module) known only by its identity. */
  datatype Obj = Thing(id: nat) | NameList(names: seq<string>)

  /** The module's `__dict__`. */
  type Namespace = map<string, Obj>

  /** The Python exceptions the two operations can raise. */
  datatype PyError =
    | AttributeError  // `append` on a tracking entry that is not a list
    | TypeError       // iterating a tracking entry that is not a list
    | KeyError        // deleting a tracking entry that is already gone

  /** How a call ends. Python keeps every mutation made before an exception,
      so a call that raises still carries the namespace it leaves behind. */
  datatype Outcome = Returned(ns: Namespace) | Raised(ns: Namespace, error: PyError)

  /** The bound names other than the tracking entry. */
  function Bindings(ns: Namespace): map<string, Obj> {
    ns - {RegisterAttr}
  }

  /** The tracked names, when the tracking entry exists and is a list. */
  function Tracked(ns: Namespace): Option<seq<string>> {
    if RegisterAttr in ns && ns[RegisterAttr].NameList? then Some(ns[RegisterAttr].names) else None
  }

  /** The tracking entry is absent or a list: the state every normal use keeps. */
  predicate WellFormed(ns: Namespace) {
    RegisterAttr in ns ==> ns[RegisterAttr].NameList?
  }

  /** `register_class(cls_name, cls, is_unique, skip_store)`. */
  function RegisterClass(ns: Namespace, clsName: string, cls: Obj, isUnique: bool, skipStore: bool): (r: Outcome)
    // the tracking entry always exists afterwards ...
    ensures RegisterAttr in r.ns
    // ... and one created by this call is empty before the name is appended
    ensures RegisterAttr !in ns && clsName != RegisterAttr ==>
              r.ns[RegisterAttr] == NameList(if skipStore || (isUnique && clsName in ns) then [] else [clsName])
    // ... and so is one created before `is_unique` stops a call on the entry's own name
    ensures RegisterAttr !in ns && clsName == RegisterAttr && isUnique ==> r.ns[RegisterAttr] == NameList([])
    // is_unique: an existing binding, registered here or not, is left alone
    ensures isUnique && (clsName in ns || clsName == RegisterAttr) ==>
              && r.Returned?
              && Bindings(r.ns) == Bindings(ns)
              && (RegisterAttr in ns ==> r.ns[RegisterAttr] == ns[RegisterAttr])
    // otherwise the name is bound to `cls` and every other binding stays as it was
    ensures !(isUnique && clsName in ns) && clsName != RegisterAttr ==>
              Bindings(r.ns) == Bindings(ns)[clsName := cls]
    // skip_store leaves the tracked names alone
    ensures skipStore && clsName != RegisterAttr ==>
              r.Returned? && (RegisterAttr in ns ==> r.ns[RegisterAttr] == ns[RegisterAttr])
    // without skip_store the name is appended at the end, duplicates included
    ensures WellFormed(ns) && clsName != RegisterAttr && !skipStore && !(isUnique && clsName in ns) ==>
              r.Returned? && Tracked(r.ns) == Some(Tracked(ns).GetOr([]) + [clsName])
    // a well-formed namespace stays well-formed under any ordinary name
    ensures WellFormed(ns) && clsName != RegisterAttr ==> r.Returned? && WellFormed(r.ns)
    // binding the tracking entry's own name replaces the list with `cls`
    ensures clsName == RegisterAttr && !isUnique ==>
              && Bindings(r.ns) == Bindings(ns)
              && r.ns[RegisterAttr] == (if !skipStore && cls.NameList? then NameList(cls.names + [RegisterAttr]) else cls)
    // the only failure: appending to a tracking entry that is not a list
    ensures r.Raised? <==>
              && !skipStore
              && !(isUnique && (clsName in ns || clsName == RegisterAttr))
              && (if clsName == RegisterAttr then cls.Thing? else RegisterAttr in ns && ns[RegisterAttr].Thing?)
    ensures r.Raised? ==> r.error == AttributeError
    // when it fails on an ordinary name, that name is already bound and the entry is left as it was
    ensures r.Raised? && clsName != RegisterAttr ==>
              RegisterAttr in ns && clsName in r.ns && r.ns[RegisterAttr] == ns[RegisterAttr] && r.ns[clsName] == cls
  {
    var withList := if RegisterAttr in ns then ns else ns[RegisterAttr := NameList([])];
    if isUnique && clsName in withList then
      Returned(withList)
    else
      var bound := withList[clsName := cls];
      if skipStore then
        Returned(bound)
      else
        match bound[RegisterAttr]
        case NameList(names) =>
          assert names == [] ==> names + [clsName] == [clsName];
          Returned(bound[RegisterAttr := NameList(names + [clsName])])
        case Thing(_) => Raised(bound, AttributeError)
  }

  /** The loop of `cleanup`: delete each listed name in turn, skipping the ones
      that are no longer bound (duplicates, names removed by hand). */
  function Unbind(ns: Namespace, names: seq<string>): (r: Namespace)
    ensures r == ns - (set n | n in names)
    decreases |names|
  {
    if names == [] then
      ns
    else
      var rest := Unbind(if names[0] in ns then ns - {names[0]} else ns, names[1..]);
      assert (set n | n in names) == {names[0]} + (set n | n in names[1..]);
      rest
  }

  /** `cleanup()`. */
  function Cleanup(ns: Namespace): (r: Outcome)
    // no tracking entry: nothing happens
    ensures RegisterAttr !in ns ==> r == Returned(ns)
    // a tracking list without its own name: every tracked name and the list
    // are unbound, everything else (skip_store names, untracked names) stays
    ensures Tracked(ns).Some? && RegisterAttr !in Tracked(ns).value ==>
              && r.Returned?
              && RegisterAttr !in r.ns
              && (forall n :: n in Tracked(ns).value ==> n !in r.ns)
              && (forall k :: k in ns && k != RegisterAttr && k !in Tracked(ns).value ==> k in r.ns && r.ns[k] == ns[k])
              && r.ns.Keys <= ns.Keys
    // a list that tracks its own name loses its entry in the loop, so the final delete fails
    ensures Tracked(ns).Some? && RegisterAttr in Tracked(ns).value ==>
              r.Raised? && r.error == KeyError && r.ns == ns - (set n | n in Tracked(ns).value)
    // a tracking entry that is not a list cannot be iterated
    ensures RegisterAttr in ns && ns[RegisterAttr].Thing? ==> r == Raised(ns, TypeError)
  {
    if RegisterAttr !in ns then
      Returned(ns)
    else
      match ns[RegisterAttr]
      case Thing(_) => Raised(ns, TypeError)
      case NameList(names) =>
        var unbound := Unbind(ns, names);
        if RegisterAttr in unbound then Returned(unbound - {RegisterAttr}) else Raised(unbound, KeyError)
  }

  /** One `register_class` call, with its arguments. */
  datatype Call = Call(clsName: string, cls: Obj, isUnique: bool, skipStore: bool)

  /** A sequence of `register_class` calls, stopping at the first exception. */
  function RegisterAll(ns: Namespace, calls: seq<Call>): Outcome
    decreases |calls|
  {
    if calls == [] then
      Returned(ns)
    else
      match RegisterClass(ns, calls[0].clsName, calls[0].cls, calls[0].isUnique, calls[0].skipStore)
      case Returned(next) => RegisterAll(next, calls[1..])
      case Raised(next, e) => Raised(next, e)
  }

  /** The names a sequence of calls binds. */
  function CallNames(calls: seq<Call>): set<string> {
    set i | 0 <= i < |calls| :: calls[i].clsName
  }

  /** Calls that track fresh, ordinary names: none skips the store, none uses
      the tracking entry's name, none rebinds a name of `ns0`. */
  ghost predicate FreshTrackedCalls(ns0: Namespace, calls: seq<Call>) {
    forall i :: 0 <= i < |calls| ==>
      !calls[i].skipStore && calls[i].clsName != RegisterAttr && calls[i].clsName !in ns0
  }

  /** What fresh tracked registrations leave: `ns0` untouched, the names `added`
      bound on top of it, and exactly those names tracked. */
  ghost predicate SessionState(ns0: Namespace, cur: Namespace, added: set<string>) {
    && RegisterAttr !in ns0
    && RegisterAttr !in added
    && added !! ns0.Keys
    && if RegisterAttr !in cur then
         cur == ns0 && added == {}
       else
         && cur[RegisterAttr].NameList?
         && (set n | n in cur[RegisterAttr].names) == added
         && cur.Keys == ns0.Keys + added + {RegisterAttr}
         && (forall k :: k in ns0 ==> cur[k] == ns0[k])
  }

  /** One fresh tracked registration keeps the session shape, adding its name. */
  lemma RegisterKeepsSession(ns0: Namespace, cur: Namespace, added: set<string>, c: Call)
    requires SessionState(ns0, cur, added)
    requires !c.skipStore && c.clsName != RegisterAttr && c.clsName !in ns0
    ensures RegisterClass(cur, c.clsName, c.cls, c.isUnique, c.skipStore).Returned?
    ensures SessionState(ns0, RegisterClass(cur, c.clsName, c.cls, c.isUnique, c.skipStore).ns, added + {c.clsName})
  {
    var l := if RegisterAttr in cur then cur[RegisterAttr].names else [];
    var withList := cur[RegisterAttr := NameList(l)];
    assert RegisterAttr in cur ==> withList == cur;
    if c.isUnique && c.clsName in cur {
      assert RegisterClass(cur, c.clsName, c.cls, c.isUnique, c.skipStore) == Returned(withList);
      SessionKeepsTrackedName(ns0, cur, added, c.clsName);
    } else {
      var next := withList[c.clsName := c.cls][RegisterAttr := NameList(l + [c.clsName])];
      assert RegisterClass(cur, c.clsName, c.cls, c.isUnique, c.skipStore) == Returned(next);
      SessionTracksNewName(ns0, cur, added, c.clsName, c.cls);
    }
  }

  /** A session with the tracking entry made explicit: rebinding a name it
      already added changes nothing in its shape. */
  lemma SessionKeepsTrackedName(ns0: Namespace, cur: Namespace, added: set<string>, name: string)
    requires SessionState(ns0, cur, added)
    requires name in cur && name != RegisterAttr && name !in ns0
    ensures var l := if RegisterAttr in cur then cur[RegisterAttr].names else [];
            SessionState(ns0, cur[RegisterAttr := NameList(l)], added + {name})
  {
    assert name in added;
    assert added + {name} == added;
  }

  /** A session extended by binding a fresh name and appending it to the tracked list. */
  lemma SessionTracksNewName(ns0: Namespace, cur: Namespace, added: set<string>, name: string, cls: Obj)
    requires SessionState(ns0, cur, added)
    requires name != RegisterAttr && name !in ns0
    ensures var l := if RegisterAttr in cur then cur[RegisterAttr].names else [];
            SessionState(ns0, cur[RegisterAttr := NameList(l)][name := cls][RegisterAttr := NameList(l + [name])], added + {name})
  {
    var l := if RegisterAttr in cur then cur[RegisterAttr].names else [];
    var next := cur[RegisterAttr := NameList(l)][name := cls][RegisterAttr := NameList(l + [name])];
    assert (set n | n in l + [name]) == (set n | n in l) + {name};
    assert next.Keys == cur.Keys + {name, RegisterAttr};
  }

  /** The names of a non-empty sequence of calls: the first one's and the rest's. */
  lemma CallNamesCons(calls: seq<Call>)
    requires calls != []
    ensures CallNames(calls) == {calls[0].clsName} + CallNames(calls[1..])
  {
    forall n | n in CallNames(calls) ensures n in {calls[0].clsName} + CallNames(calls[1..]) {
      var i :| 0 <= i < |calls| && calls[i].clsName == n;
      if i > 0 { assert calls[1..][i - 1] == calls[i]; }
    }
    forall n | n in CallNames(calls[1..]) ensures n in CallNames(calls) {
      var i :| 0 <= i < |calls[1..]| && calls[1..][i].clsName == n;
      assert calls[i + 1] == calls[1..][i];
    }
  }

  lemma {:induction false} RegisterAllKeepsSession(ns0: Namespace, cur: Namespace, added: set<string>, calls: seq<Call>)
    requires SessionState(ns0, cur, added)
    requires FreshTrackedCalls(ns0, calls)
    ensures RegisterAll(cur, calls).Returned?
    ensures SessionState(ns0, RegisterAll(cur, calls).ns, added + CallNames(calls))
    decreases |calls|
  {
    if calls == [] {
      assert CallNames(calls) == {};
    } else {
      var c := calls[0];
      RegisterKeepsSession(ns0, cur, added, c);
      var next := RegisterClass(cur, c.clsName, c.cls, c.isUnique, c.skipStore).ns;
      assert FreshTrackedCalls(ns0, calls[1..]) by {
        forall i | 0 <= i < |calls[1..]|
          ensures !calls[1..][i].skipStore && calls[1..][i].clsName != RegisterAttr && calls[1..][i].clsName !in ns0
        {
          assert calls[1..][i] == calls[i + 1];
        }
      }
      RegisterAllKeepsSession(ns0, next, added + {c.clsName}, calls[1..]);
      CallNamesCons(calls);
      assert added + {c.clsName} + CallNames(calls[1..]) == added + CallNames(calls);
    }
  }

  /** Registering fresh names with tracking and then cleaning up gives back the
      namespace as it was before the first registration. */
  lemma CleanupUndoesFreshRegistrations(ns0: Namespace, calls: seq<Call>)
    requires RegisterAttr !in ns0
    requires FreshTrackedCalls(ns0, calls)
    ensures RegisterAll(ns0, calls).Returned?
    ensures Cleanup(RegisterAll(ns0, calls).ns) == Returned(ns0)
  {
    RegisterAllKeepsSession(ns0, ns0, {}, calls);
    var cur := RegisterAll(ns0, calls).ns;
    var r := Cleanup(cur);
    if RegisterAttr in cur {
      var names := cur[RegisterAttr].names;
      assert RegisterAttr !in names by {
        assert RegisterAttr !in (set n | n in names);
      }
      assert r.ns.Keys == ns0.Keys;
    }
  }
}
