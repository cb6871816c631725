/** How a runtime configuration numbers its services. */
module ServiceIds {
  import opened Bytes
  import Receive

  const USER_SERVICE_ID_START: nat := 256
  const SERVICE_ID_MAX: nat := 0xFFFF
  const MAX_USER_SERVICES: nat := SERVICE_ID_MAX - USER_SERVICE_ID_START + 1

  /** A service as configured; id zero asks for an automatic one. */
  datatype Service = Service(id: u16, name: string, listen: Option<nat>)

  datatype ConfigError =
    | TooManyServices
    | DuplicateServiceName(name: string)
    | DuplicateListenAddress(listen: nat)
    | DuplicateServiceId(id: u16)

  /** Service constructors refuse reserved ids. */
  ghost predicate Constructed(services: seq<Service>) {
    forall i :: 0 <= i < |services| ==> services[i].id == 0 || services[i].id >= USER_SERVICE_ID_START
  }

  /** What a service may be numbered is exactly what the receiver does not keep for Gatherlink itself. */
  lemma UserIdsAreNotReserved(id: u16)
    ensures Receive.IsReserved(id) <==> !Constructed([Service(id, "", None)]) || id == 0
  {
    assert [Service(id, "", None)][0].id == id;
  }

  // ----- which ids are automatic ----------------------------------------------

  /** The ids some service claims, wherever it stands in the list. */
  function Claimed(services: seq<Service>): (ids: set<nat>)
    ensures forall i :: 0 <= i < |services| && services[i].id != 0 ==> services[i].id in ids
    ensures forall x :: x in ids ==> x != 0 && exists i :: 0 <= i < |services| && services[i].id == x
  {
    if services == [] then {}
    else
      var n := |services| - 1;
      assert services == services[..n] + [services[n]];
      Claimed(services[..n]) + if services[n].id == 0 then {} else {services[n].id}
  }

  /** The first unclaimed number from `from` on. */
  function NextFree(claimed: set<nat>, from: nat): (id: nat)
    ensures id >= from && (forall x :: from <= x < id ==> x in claimed) && (id <= SERVICE_ID_MAX ==> id !in claimed)
    decreases SERVICE_ID_MAX + 1 - from
  {
    if from > SERVICE_ID_MAX || from !in claimed then from else NextFree(claimed, from + 1)
  }

  /** The automatic id of the `k`-th service that asks for one. */
  function AutoId(claimed: set<nat>, k: nat): (id: nat)
    ensures id >= USER_SERVICE_ID_START + k && (id <= SERVICE_ID_MAX ==> id !in claimed)
  {
    NextFree(claimed, if k == 0 then USER_SERVICE_ID_START else AutoId(claimed, k - 1) + 1)
  }

  function Automatic(services: seq<Service>, n: nat): (k: nat)
    requires n <= |services|
    ensures k <= n
    decreases n
  {
    if n == 0 then 0 else Automatic(services, n - 1) + if services[n - 1].id == 0 then 1 else 0
  }

  function IdOf(services: seq<Service>, i: nat): nat
    requires i < |services|
  {
    if services[i].id != 0 then services[i].id else AutoId(Claimed(services), Automatic(services, i))
  }

  // ----- what automatic ids are -----------------------------------------------

  ghost function Unclaimed(claimed: set<nat>, below: nat): (free: set<nat>)
    ensures forall x :: x in free <==> USER_SERVICE_ID_START <= x < below && x !in claimed
    decreases below
  {
    if below <= USER_SERVICE_ID_START then {}
    else Unclaimed(claimed, below - 1) + if below - 1 in claimed then {} else {below - 1}
  }

  /** The `k`-th automatic id is the user id with exactly `k` unclaimed user ids below it. */
  lemma {:induction false} AutoIdIsKthUnclaimed(claimed: set<nat>, k: nat)
    requires AutoId(claimed, k) <= SERVICE_ID_MAX
    ensures AutoId(claimed, k) !in claimed && |Unclaimed(claimed, AutoId(claimed, k))| == k
  {
    hide Unclaimed, NextFree;
    var id := AutoId(claimed, k);
    if k == 0 {
      assert Unclaimed(claimed, id) == {};
    } else {
      var before := AutoId(claimed, k - 1);
      AutoIdIsKthUnclaimed(claimed, k - 1);
      assert Unclaimed(claimed, id) == Unclaimed(claimed, before) + {before};
    }
  }

  lemma {:induction false} AutoIdsIncrease(claimed: set<nat>, j: nat, k: nat)
    requires j < k
    ensures AutoId(claimed, j) < AutoId(claimed, k)
    decreases k
  {
    if j < k - 1 {
      AutoIdsIncrease(claimed, j, k - 1);
    }
  }

  lemma {:induction false} AutomaticGrows(services: seq<Service>, i: nat, j: nat)
    requires i < j <= |services|
    ensures Automatic(services, i) + (if services[i].id == 0 then 1 else 0) <= Automatic(services, j)
    decreases j
  {
    if i < j - 1 {
      AutomaticGrows(services, i, j - 1);
    }
  }

  // ----- when numbering succeeds ----------------------------------------------

  ghost predicate NamesDistinct(services: seq<Service>) {
    forall i, j :: 0 <= i < j < |services| ==> services[i].name != services[j].name
  }

  ghost predicate ListensDistinct(services: seq<Service>) {
    forall i, j :: 0 <= i < j < |services| && services[i].listen.Some? ==> services[i].listen != services[j].listen
  }

  ghost predicate ExplicitDistinct(services: seq<Service>) {
    forall i, j :: 0 <= i < j < |services| && services[i].id != 0 ==> services[i].id != services[j].id
  }

  /** Every automatic id stays below the last id, which is never given out automatically. */
  predicate AutomaticFit(services: seq<Service>) {
    var k := Automatic(services, |services|);
    k > 0 ==> AutoId(Claimed(services), k - 1) < SERVICE_ID_MAX
  }

  ghost predicate Buildable(services: seq<Service>) {
    && |services| <= MAX_USER_SERVICES
    && NamesDistinct(services) && ListensDistinct(services) && ExplicitDistinct(services) && AutomaticFit(services)
  }

  lemma AutomaticIdFits(services: seq<Service>, i: nat)
    requires AutomaticFit(services) && i < |services| && services[i].id == 0
    ensures IdOf(services, i) < SERVICE_ID_MAX
  {
    hide AutoId, Claimed;
    var k, total := Automatic(services, i), Automatic(services, |services|);
    AutomaticGrows(services, i, |services|);
    if k < total - 1 {
      AutoIdsIncrease(Claimed(services), k, total - 1);
    }
  }

  /** The ids given are user ids, all different, and a claimed id is kept. */
  lemma IdsAreDistinctUserIds(services: seq<Service>, i: nat, j: nat)
    requires Constructed(services) && ExplicitDistinct(services) && AutomaticFit(services) && i < j < |services|
    ensures USER_SERVICE_ID_START <= IdOf(services, i) <= SERVICE_ID_MAX && IdOf(services, i) != IdOf(services, j)
    ensures services[i].id != 0 ==> IdOf(services, i) == services[i].id
  {
    hide Automatic;
    var claimed := Claimed(services);
    if services[i].id == 0 {
      AutomaticIdFits(services, i);
    }
    if services[j].id == 0 {
      AutomaticIdFits(services, j);
    }
    if services[i].id == 0 && services[j].id == 0 {
      AutomaticGrows(services, i, j);
      AutoIdsIncrease(claimed, Automatic(services, i), Automatic(services, j));
    }
  }

  // ----- the loop -------------------------------------------------------------

  /** Where the search for the next automatic id stands after `k` of them. */
  function SearchFrom(claimed: set<nat>, k: nat): nat {
    if k == 0 then USER_SERVICE_ID_START else AutoId(claimed, k - 1) + 1
  }

  method NextAutomatic(claimed: set<nat>, from: nat, ghost k: nat) returns (id: Option<nat>)
    requires from == SearchFrom(claimed, k) <= SERVICE_ID_MAX
    ensures id.Some? ==> id.value == AutoId(claimed, k) < SERVICE_ID_MAX
    ensures id.None? ==> AutoId(claimed, k) >= SERVICE_ID_MAX
  {
    hide AutoId;
    NextFreeStep(claimed, k);
    var next := from;
    while next in claimed
      invariant from <= next <= SERVICE_ID_MAX && NextFree(claimed, next) == AutoId(claimed, k)
      decreases SERVICE_ID_MAX - next
    {
      if next == SERVICE_ID_MAX {
        return None;
      }
      next := next + 1;
    }
    id := if next == SERVICE_ID_MAX then None else Some(next);
  }

  lemma NextFreeStep(claimed: set<nat>, k: nat)
    ensures AutoId(claimed, k) == NextFree(claimed, SearchFrom(claimed, k))
  {
    hide NextFree;
  }

  lemma AutomaticRunsOut(services: seq<Service>, i: nat)
    requires i < |services| && services[i].id == 0
    requires AutoId(Claimed(services), Automatic(services, i)) >= SERVICE_ID_MAX
    ensures !AutomaticFit(services)
  {
    hide AutoId, Claimed;
    if AutomaticFit(services) {
      AutomaticIdFits(services, i);
    }
  }

  /** What the first `n` services have used up, none of it twice. */
  ghost predicate Collected(services: seq<Service>, n: nat, names: set<string>, listens: set<nat>, ids: seq<nat>)
    requires n <= |services|
  {
    && (forall i :: 0 <= i < n ==> services[i].name in names)
    && (forall x :: x in names ==> exists i :: 0 <= i < n && services[i].name == x)
    && (forall i :: 0 <= i < n && services[i].listen.Some? ==> services[i].listen.value in listens)
    && (forall x :: x in listens ==> exists i :: 0 <= i < n && services[i].listen == Some(x))
    && |ids| == n && (forall i :: 0 <= i < n ==> ids[i] == IdOf(services, i))
    && NamesDistinct(services[..n]) && ListensDistinct(services[..n]) && Distinct(ids)
  }

  lemma CollectedNone(services: seq<Service>)
    ensures Collected(services, 0, {}, {}, [])
  {
    hide IdOf;
  }

  lemma CollectedOne(services: seq<Service>, n: nat, names: set<string>, listens: set<nat>, ids: seq<nat>)
    requires n < |services| && Collected(services, n, names, listens, ids)
    requires services[n].name !in names && (services[n].listen.Some? ==> services[n].listen.value !in listens)
    requires IdOf(services, n) !in ids
    ensures var listens' := if services[n].listen.Some? then listens + {services[n].listen.value} else listens;
      Collected(services, n + 1, names + {services[n].name}, listens', ids + [IdOf(services, n)])
  {
    hide IdOf;
    assert services[..n + 1] == services[..n] + [services[n]];
    var listens' := if services[n].listen.Some? then listens + {services[n].listen.value} else listens;
    forall x | x in listens' ensures exists i :: 0 <= i < n + 1 && services[i].listen == Some(x) {
      if x in listens {
        var i :| 0 <= i < n && services[i].listen == Some(x);
        assert services[i].listen == Some(x);
      } else {
        assert services[n].listen == Some(x);
      }
    }
    forall x | x in names + {services[n].name} ensures exists i :: 0 <= i < n + 1 && services[i].name == x {
      if x in names {
        var i :| 0 <= i < n && services[i].name == x;
        assert services[i].name == x;
      } else {
        assert services[n].name == x;
      }
    }
  }

  lemma RepeatedName(services: seq<Service>, n: nat, names: set<string>, listens: set<nat>, ids: seq<nat>)
    requires n < |services| && Collected(services, n, names, listens, ids)
    ensures services[n].name in names ==> !NamesDistinct(services)
    ensures services[n].listen.Some? && services[n].listen.value in listens ==> !ListensDistinct(services)
  {
    hide IdOf;
    if services[n].name in names {
      var i :| 0 <= i < n && services[i].name == services[n].name;
      assert services[i].name == services[n].name;
    }
    if services[n].listen.Some? && services[n].listen.value in listens {
      var i :| 0 <= i < n && services[i].listen == services[n].listen;
      assert services[i].listen == services[n].listen;
    }
  }

  /** Succeeds for exactly the buildable lists, and then gives every service its id. */
  method AssignServiceIds(services: seq<Service>) returns (r: Result<seq<nat>, ConfigError>)
    requires Constructed(services)
    ensures r.Ok? <==> Buildable(services)
    ensures r.Ok? ==> |r.value| == |services| && forall i :: 0 <= i < |services| ==> r.value[i] == IdOf(services, i)
  {
    hide AutoId, Claimed, IdOf, AutomaticFit, Collected, NamesDistinct, ListensDistinct, ExplicitDistinct;
    if |services| > MAX_USER_SERVICES {
      return Err(TooManyServices);
    }
    var names: set<string>, listens: set<nat>, ids: seq<nat> := {}, {}, [];
    var claimed := Claimed(services);
    var next := USER_SERVICE_ID_START;
    CollectedNone(services);
    for i := 0 to |services|
      invariant Collected(services, i, names, listens, ids)
      invariant next == SearchFrom(claimed, Automatic(services, i)) <= SERVICE_ID_MAX
    {
      var service := services[i];
      RepeatedName(services, i, names, listens, ids);
      if service.name in names {
        return Err(DuplicateServiceName(service.name));
      }
      if service.listen.Some? && service.listen.value in listens {
        return Err(DuplicateListenAddress(service.listen.value));
      }
      var id: nat := service.id;
      if service.id == 0 {
        var found := NextAutomatic(claimed, next, Automatic(services, i));
        if found.None? {
          AutomaticRunsOut(services, i);
          return Err(TooManyServices);
        }
        id := found.value;
        next := id + 1;
      }
      IdOfIs(services, i);
      if id in ids {
        RepeatedId(services, i, names, listens, ids);
        return Err(DuplicateServiceId(id));
      }
      CollectedOne(services, i, names, listens, ids);
      names := names + {service.name};
      if service.listen.Some? {
        listens := listens + {service.listen.value};
      }
      ids := ids + [id];
    }
    AllAssigned(services, names, listens, ids, next);
    r := Ok(ids);
  }

  ghost predicate Distinct(ids: seq<nat>) { forall i, j :: 0 <= i < j < |ids| ==> ids[i] != ids[j] }

  lemma IdOfIs(services: seq<Service>, i: nat)
    requires i < |services|
    ensures IdOf(services, i) ==
            if services[i].id != 0 then services[i].id else AutoId(Claimed(services), Automatic(services, i))
  {
  }

  lemma RepeatedId(services: seq<Service>, i: nat, names: set<string>, listens: set<nat>, ids: seq<nat>)
    requires Constructed(services) && i < |services| && Collected(services, i, names, listens, ids)
    requires IdOf(services, i) in ids
    ensures !Buildable(services)
  {
    hide IdOf, AutomaticFit, NamesDistinct, ListensDistinct;
    if Buildable(services) {
      var j :| 0 <= j < i && ids[j] == IdOf(services, i);
      IdsAreDistinctUserIds(services, j, i);
    }
  }

  lemma ExplicitKept(services: seq<Service>, ids: seq<nat>)
    requires |ids| == |services| && Distinct(ids) && forall i :: 0 <= i < |services| ==> ids[i] == IdOf(services, i)
    ensures ExplicitDistinct(services)
  {
    hide AutoId, Claimed, Automatic;
    forall i, j | 0 <= i < j < |services| && services[i].id != 0 ensures services[i].id != services[j].id {
      assert ids[i] == services[i].id && ids[i] != ids[j];
    }
  }

  lemma LastAutomaticFits(services: seq<Service>)
    requires SearchFrom(Claimed(services), Automatic(services, |services|)) <= SERVICE_ID_MAX
    ensures AutomaticFit(services)
  {
    hide AutoId, Claimed, Automatic;
  }

  lemma AllAssigned(services: seq<Service>, names: set<string>, listens: set<nat>, ids: seq<nat>, next: nat)
    requires Collected(services, |services|, names, listens, ids)
    requires next == SearchFrom(Claimed(services), Automatic(services, |services|)) <= SERVICE_ID_MAX
    ensures NamesDistinct(services) && ListensDistinct(services) && ExplicitDistinct(services) && AutomaticFit(services)
    ensures |ids| == |services| && forall i :: 0 <= i < |services| ==> ids[i] == IdOf(services, i)
  {
    hide AutoId, Claimed, Automatic, IdOf, NamesDistinct, ListensDistinct, ExplicitDistinct, AutomaticFit, Distinct;
    assert services[..|services|] == services;
    ExplicitKept(services, ids);
    LastAutomaticFits(services);
  }

  /** The last user id is never given out automatically: when every other one is claimed, a list that asks for
      one more fails, whether or not the last is free. */
  lemma LastIdIsNeverAutomatic(services: seq<Service>)
    requires Automatic(services, |services|) > 0
    requires forall x :: USER_SERVICE_ID_START <= x < SERVICE_ID_MAX ==> x in Claimed(services)
    ensures !Buildable(services)
  {
    hide NextFree, Claimed, Automatic;
    var k := Automatic(services, |services|);
    NextFreeStep(Claimed(services), 0);
    if k > 1 {
      AutoIdsIncrease(Claimed(services), 0, k - 1);
    }
  }
}
