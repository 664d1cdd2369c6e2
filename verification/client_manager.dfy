/** The client's proxies and their reload with new settings (client/proxy/proxy_manager.go). */
module ClientManager {
  import opened Prelude
  import opened ClientProxies

  type Confs = map<string, ProxyConf>

  function CloseOf(proxies: map<string, Wrapper>, key: string): Message {
    CloseProxy(if key in proxies then proxies[key].cfg.name else key)
  }

  /** The close messages of the wrappers under these keys. */
  function Closes(proxies: map<string, Wrapper>, order: seq<string>): seq<Message> {
    seq(|order|, i requires 0 <= i < |order| => CloseOf(proxies, order[i]))
  }

  lemma ClosesAppend(proxies: map<string, Wrapper>, order: seq<string>, key: string)
    ensures Closes(proxies, order + [key]) == Closes(proxies, order) + [CloseOf(proxies, key)]
  {
  }

  /** The sequence lists the elements of the set, each once. */
  ghost predicate Lists(order: seq<string>, keys: set<string>) {
    && (forall i, j :: 0 <= i < j < |order| ==> order[i] != order[j])
    && (forall n :: n in order <==> n in keys)
  }

  lemma ListsAppend(order: seq<string>, keys: set<string>, key: string)
    requires Lists(order, keys) && key !in keys
    ensures Lists(order + [key], keys + {key})
  {
    var more := order + [key];
    forall i, j | 0 <= i < j < |more| ensures more[i] != more[j] {
      assert order[i] in order;
    }
  }

  lemma ListsNothing(order: seq<string>, keys: set<string>)
    requires Lists(order, keys)
    ensures keys == {} ==> order == []
  {
    assert |order| > 0 ==> order[0] in keys;
  }

  class Manager {
    var proxies: map<string, Wrapper>
    const out: Outbox

    ghost predicate Valid()
      reads this, proxies.Values
    {
      forall n :: n in proxies ==> Holds(n, proxies[n])
    }

    /** A wrapper in the map uses the shared outbox and has not been stopped. */
    ghost predicate Holds(n: string, w: Wrapper)
      reads w
    {
      w.slot == n && w.out == out && w.phase != Closed
    }

    constructor (out: Outbox)
      ensures Valid() && proxies == map[] && this.out == out
    {
      proxies := map[];
      this.out := out;
    }

    /** A proxy keeps running through a reload when its settings are still there and deeply equal. */
    static predicate Kept(all: map<string, Wrapper>, cfgs: Confs, n: string)
      requires n in all
    {
      n in cfgs && all[n].cfg == cfgs[n]
    }

    /** The server answered for a proxy. */
    method StartProxy(name: string, remoteAddr: string, respErr: string, ran: Option<string>, now: int) returns (ok: bool)
      requires Valid()
      modifies proxies.Values, out
      ensures Valid()
      ensures name !in proxies ==> !ok && out.msgs == old(out.msgs)
      ensures name in proxies ==>
                && proxies[name].State() == Answered(old(proxies[name].State()), remoteAddr, respErr, ran, now).0
                && (ok <==> old(proxies[name].phase) == WaitStart && proxies[name].phase == Running)
                && out.msgs == old(out.msgs) + (if Answered(old(proxies[name].State()), remoteAddr, respErr, ran, now).1
                                                then [CloseProxy(proxies[name].cfg.name)] else [])
      ensures forall n :: n in proxies && n != name ==> proxies[n].State() == old(proxies[n].State())
    {
      if name !in proxies {
        return false;
      }
      var w := proxies[name];
      assert Holds(name, w);
      ok := w.SetRunningStatus(remoteAddr, respErr, ran, now);
      forall n | n in proxies ensures Holds(n, proxies[n]) && (n != name ==> proxies[n].State() == old(proxies[n].State())) {
        assert old(Holds(n, proxies[n]));
      }
    }

    /** Stops and removes every wrapper whose settings are gone or changed, in some order. */
    method RemoveChanged(cfgs: Confs) returns (ghost order: seq<string>)
      requires Valid()
      modifies this, proxies.Values, out
      ensures Valid()
      ensures forall n :: n in proxies <==> n in old(proxies) && Kept(old(proxies), cfgs, n)
      ensures forall n :: n in proxies ==> proxies[n] == old(proxies)[n] && proxies[n].State() == old(proxies[n].State())
      ensures forall n :: n in old(proxies) && n !in proxies ==> old(proxies)[n].State() == old(proxies[n].State()).(phase := Closed)
      ensures Lists(order, old(proxies.Keys) - proxies.Keys)
      ensures out.msgs == old(out.msgs) + Closes(old(proxies), order)
    {
      order := [];
      var names := proxies.Keys;
      ghost var all := proxies;
      ghost var before := map n | n in proxies :: proxies[n].State();
      while names != {}
        invariant Valid() && names <= all.Keys && proxies.Keys <= all.Keys
        invariant forall n :: n in all ==> Visited(all, before, cfgs, names, n)
        invariant Lists(order, all.Keys - proxies.Keys)
        invariant out.msgs == old(out.msgs) + Closes(all, order)
        decreases names
      {
        var name := AnyOf(names);
        assert Visited(all, before, cfgs, names, name);
        var del := name !in cfgs || proxies[name].cfg != cfgs[name];
        if del {
          order := VisitChanged(all, before, cfgs, names, order, name, old(out.msgs));
        } else {
          forall n | n in all ensures Visited(all, before, cfgs, names - {name}, n) { assert Visited(all, before, cfgs, names, n); }
        }
        names := names - {name};
      }
      forall n | n in all ensures Visited(all, before, cfgs, {}, n) { assert Visited(all, before, cfgs, names, n); }
    }

    /** Where the scan stands with one key, when the keys in `names` are still to come. */
    ghost predicate Visited(all: map<string, Wrapper>, before: map<string, WrapperState>, cfgs: Confs, names: set<string>, n: string)
      requires n in all
      reads this, all[n]
    {
      && all[n].slot == n
      && (n in proxies <==> n in names || Kept(all, cfgs, n))
      && (n in proxies ==> proxies[n] == all[n])
      && n in before
      && all[n].State() == if n in proxies then before[n] else before[n].(phase := Closed)
    }

    method VisitChanged(ghost all: map<string, Wrapper>, ghost before: map<string, WrapperState>, ghost cfgs: Confs,
                        ghost names: set<string>, ghost order: seq<string>, name: string, ghost sent: seq<Message>)
      returns (ghost longer: seq<string>)
      requires Valid() && name in all && name in proxies && name in names && !Kept(all, cfgs, name)
      requires proxies.Keys <= all.Keys && Lists(order, all.Keys - proxies.Keys)
      requires out.msgs == sent + Closes(all, order)
      requires forall n :: n in all ==> Visited(all, before, cfgs, names, n)
      modifies this, proxies[name], out
      ensures Valid() && proxies == old(proxies) - {name}
      ensures forall n :: n in all ==> Visited(all, before, cfgs, names - {name}, n)
      ensures Lists(longer, all.Keys - proxies.Keys)
      ensures out.msgs == sent + Closes(all, longer)
    {
      assert Visited(all, before, cfgs, names, name);
      longer := order + [name];
      ListsAppend(order, all.Keys - proxies.Keys, name);
      ClosesAppend(all, order, name);
      RemoveOne(name);
      assert all.Keys - proxies.Keys == all.Keys - old(proxies.Keys) + {name};
      forall n | n in all ensures Visited(all, before, cfgs, names - {name}, n) {
        assert old(Visited(all, before, cfgs, names, n));
        assert n != name ==> all[n] != all[name];
      }
    }

    method RemoveOne(name: string)
      requires Valid() && name in proxies
      modifies this, proxies[name], out
      ensures Valid() && proxies == old(proxies) - {name}
      ensures old(proxies)[name].State() == old(proxies[name].State()).(phase := Closed)
      ensures out.msgs == old(out.msgs) + [CloseProxy(old(proxies)[name].cfg.name)]
    {
      var pxy := proxies[name];
      assert Holds(name, pxy);
      proxies := proxies - {name};
      pxy.Stop();
      forall n | n in proxies ensures Holds(n, proxies[n]) { assert old(Holds(n, proxies[n])); }
    }

    /** A wrapper just made for these settings. */
    ghost predicate Made(w: Wrapper, cfg: ProxyConf)
      reads w
    {
      w.cfg == cfg && w.State() == Initial(cfg)
    }

    /** Creates and starts a wrapper for every name that has none. */
    method AddMissing(cfgs: Confs)
      requires Valid() && proxies.Keys <= cfgs.Keys
      modifies this
      ensures Valid() && proxies.Keys == cfgs.Keys
      ensures forall n :: n in old(proxies) ==> proxies[n] == old(proxies)[n]
      ensures forall n :: n in proxies && n !in old(proxies) ==> fresh(proxies[n]) && Made(proxies[n], cfgs[n])
    {
      var names := cfgs.Keys;
      while names != {}
        invariant Valid() && names <= cfgs.Keys && proxies.Keys <= cfgs.Keys
        invariant forall n :: n in cfgs ==> n in names || n in proxies
        invariant forall n :: n in old(proxies) ==> n in proxies && proxies[n] == old(proxies)[n]
        invariant forall n :: n in proxies && n !in old(proxies) ==> fresh(proxies[n]) && Made(proxies[n], cfgs[n])
        decreases names
      {
        var name := AnyOf(names);
        names := names - {name};
        if name !in proxies {
          var pxy := new Wrapper(cfgs[name], out, name);
          proxies := proxies[name := pxy];
        }
      }
    }

    /**
     * Reload: afterwards there is a wrapper for exactly the given names. One whose settings are deeply
     * equal is the same object in the same state; every other old one is stopped, exactly once; every
     * other name has a new wrapper. `order` lists the stopped keys.
     */
    method Reload(cfgs: Confs) returns (ghost order: seq<string>)
      requires Valid()
      modifies this, proxies.Values, out
      ensures Valid() && proxies.Keys == cfgs.Keys && forall n :: n in proxies ==> proxies[n].cfg == cfgs[n]
      ensures forall n :: n in old(proxies) && Kept(old(proxies), cfgs, n) ==>
                proxies[n] == old(proxies)[n] && proxies[n].State() == old(proxies[n].State())
      ensures forall n :: n in old(proxies) && !Kept(old(proxies), cfgs, n) ==>
                old(proxies)[n].State() == old(proxies[n].State()).(phase := Closed)
      ensures forall n :: n in proxies && !(n in old(proxies) && Kept(old(proxies), cfgs, n)) ==>
                fresh(proxies[n]) && Made(proxies[n], cfgs[n])
      ensures Lists(order, set n | n in old(proxies) && !Kept(old(proxies), cfgs, n))
      ensures out.msgs == old(out.msgs) + Closes(old(proxies), order)
    {
      order := RemoveChanged(cfgs);
      AddMissing(cfgs);
    }

    /** Loading the settings that are in place stops, starts and sends nothing. */
    method ReloadAgain(cfgs: Confs)
      requires Valid() && proxies.Keys == cfgs.Keys && forall n :: n in proxies ==> proxies[n].cfg == cfgs[n]
      modifies this, proxies.Values, out
      ensures Valid() && proxies == old(proxies) && out.msgs == old(out.msgs)
      ensures forall n :: n in proxies ==> proxies[n].State() == old(proxies[n].State())
    {
      ghost var order := Reload(cfgs);
      assert forall n :: n in old(proxies) ==> Kept(old(proxies), cfgs, n);
      ListsNothing(order, set n | n in old(proxies) && !Kept(old(proxies), cfgs, n));
    }

    /** Stops everything. */
    method Close() returns (ghost order: seq<string>)
      requires Valid()
      modifies this, proxies.Values, out
      ensures Valid() && proxies == map[]
      ensures forall n :: n in old(proxies) ==> old(proxies)[n].State() == old(proxies[n].State()).(phase := Closed)
      ensures Lists(order, old(proxies.Keys)) && out.msgs == old(out.msgs) + Closes(old(proxies), order)
    {
      order := RemoveChanged(map[]);
      assert proxies.Keys == {};
      assert old(proxies.Keys) - {} == old(proxies.Keys);
    }
  }
}
