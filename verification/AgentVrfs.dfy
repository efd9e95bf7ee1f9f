/** What the VRF loops of a pass do. */
module AgentVrfs {
  import opened Netlink
  import opened Agent

  /** Some key outside `skip` is in `have` already or repeats an earlier position. */
  ghost predicate Clash<T(!new)>(have: set<T>, skip: set<T>, keys: seq<T>) {
    exists i :: 0 <= i < |keys| && keys[i] !in skip && (keys[i] in have || keys[i] in keys[..i])
  }

  lemma ClashStep<T(!new)>(have: set<T>, skip: set<T>, keys: seq<T>)
    requires keys != []
    ensures Clash(have, skip, keys) <==>
              (keys[0] !in skip && keys[0] in have)
              || Clash(if keys[0] in skip then have else have + {keys[0]}, skip, keys[1..])
  {
    var rest := keys[1..];
    var more := if keys[0] in skip then have else have + {keys[0]};
    if Clash(have, skip, keys) {
      var i :| 0 <= i < |keys| && keys[i] !in skip && (keys[i] in have || keys[i] in keys[..i]);
      if i > 0 {
        assert rest[i - 1] == keys[i] && keys[..i] == [keys[0]] + rest[..i - 1];
        assert rest[i - 1] !in skip && (rest[i - 1] in more || rest[i - 1] in rest[..i - 1]);
      }
    }
    if Clash(more, skip, rest) {
      var i :| 0 <= i < |rest| && rest[i] !in skip && (rest[i] in more || rest[i] in rest[..i]);
      assert keys[i + 1] == rest[i] && keys[..i + 1] == [keys[0]] + rest[..i];
      assert keys[i + 1] !in skip && (keys[i + 1] in have || keys[i + 1] in keys[..i + 1]);
    }
    if keys[0] !in skip && keys[0] in have {
      var i := 0;
      assert keys[i] !in skip && keys[i] in have;
    }
  }

  /** Counting the new keys of `{x} + rest` one at a time. */
  lemma NewKeysStep<T(!new)>(x: T, rest: set<T>, have: set<T>)
    ensures x in have ==> ({x} + rest) - have == rest - have
    ensures x !in have ==> |({x} + rest) - have| == 1 + |rest - (have + {x})|
  {
    if x !in have {
      assert ({x} + rest) - have == {x} + (rest - (have + {x}));
    } else {
      assert ({x} + rest) - have == rest - have;
    }
  }

  lemma StaleKeysStep<T(!new)>(x: T, rest: set<T>, keep: set<T>)
    requires x !in rest
    ensures x in keep ==> ({x} + rest) - keep == rest - keep
    ensures x !in keep ==> ({x} + rest) - keep == {x} + (rest - keep) && |({x} + rest) - keep| == 1 + |rest - keep|
  {
    if x !in keep {
      assert ({x} + rest) - keep == {x} + (rest - keep);
    } else {
      assert ({x} + rest) - keep == rest - keep;
    }
  }

  ghost function NameSeq(list: seq<VrfConfig>): seq<string> {
    seq(|list|, i requires 0 <= i < |list| => list[i].name)
  }

  lemma VrfNamesStep(list: seq<VrfConfig>)
    requires list != []
    ensures VrfNames(list) == {list[0].name} + VrfNames(list[1..])
    ensures NameSeq(list)[1..] == NameSeq(list[1..])
  {
    assert list == [list[0]] + list[1..];
  }

  lemma VrfStepsKeepInv(p: Progress, cfg: VrfConfig, name: string)
    requires HostInv(p.host)
    ensures HostInv(CreateStep(p, cfg).host) && HostInv(DeleteStep(p, name).host)
  {
    OpKeepsInv(p.host, CreateVRF(cfg));
    OpKeepsInv(p.host, DeleteVRF(name));
  }

  lemma {:induction false} CreateMissingKeepsInv(p: Progress, actual: set<string>, want: seq<VrfConfig>)
    requires HostInv(p.host)
    ensures HostInv(CreateMissing(p, actual, want).host)
    decreases |want|
  {
    if want != [] {
      VrfStepsKeepInv(p, want[0], want[0].name);
      CreateMissingKeepsInv(if want[0].name in actual then p else CreateStep(p, want[0]), actual, want[1..]);
    }
  }

  lemma {:induction false} DeleteStaleKeepsInv(p: Progress, desired: set<string>, actual: seq<VrfConfig>)
    requires HostInv(p.host)
    ensures HostInv(DeleteStale(p, desired, actual).host)
    decreases |actual|
  {
    if actual != [] {
      VrfStepsKeepInv(p, actual[0], actual[0].name);
      DeleteStaleKeepsInv(if actual[0].name in desired then p else DeleteStep(p, actual[0].name), desired, actual[1..]);
    }
  }

  lemma {:induction false} CreateMissingHost(p: Progress, actual: set<string>, want: seq<VrfConfig>)
    requires actual <= p.host.vrfs.Keys
    ensures var q := CreateMissing(p, actual, want);
            && q.host.routes == p.host.routes && q.host.acls == p.host.acls
            && q.host.vrfs.Keys == p.host.vrfs.Keys + VrfNames(want)
            && (forall n | n in p.host.vrfs :: q.host.vrfs[n] == p.host.vrfs[n])
    decreases |want|
  {
    if want == [] {
      assert VrfNames(want) == {};
    } else {
      VrfNamesStep(want);
      CreateMissingHost(if want[0].name in actual then p else CreateStep(p, want[0]), actual, want[1..]);
    }
  }

  /** `cfg` is the first entry of the list with the name `n`. */
  ghost predicate FirstNamed(list: seq<VrfConfig>, n: string, cfg: VrfConfig) {
    exists i :: 0 <= i < |list| && list[i] == cfg && cfg.name == n && forall j | 0 <= j < i :: list[j].name != n
  }

  lemma FirstNamedCons(list: seq<VrfConfig>, n: string, cfg: VrfConfig)
    requires list != []
    ensures list[0].name == n ==> FirstNamed(list, n, list[0])
    ensures list[0].name != n && FirstNamed(list[1..], n, cfg) ==> FirstNamed(list, n, cfg)
  {
    if list[0].name != n && FirstNamed(list[1..], n, cfg) {
      var i :| 0 <= i < |list[1..]| && list[1..][i] == cfg && forall j | 0 <= j < i :: list[1..][j].name != n;
      assert list[i + 1] == cfg;
      forall j | 0 <= j < i + 1 ensures list[j].name != n {
        if j > 0 { assert list[j] == list[1..][j - 1]; }
      }
    }
  }

  /** A missing VRF is created from the first entry that names it. */
  lemma {:induction false} CreatedAreFirst(p: Progress, actual: set<string>, want: seq<VrfConfig>, n: string)
    requires actual <= p.host.vrfs.Keys && n !in p.host.vrfs && n in VrfNames(want)
    ensures var q := CreateMissing(p, actual, want).host; n in q.vrfs && FirstNamed(want, n, q.vrfs[n])
    decreases |want|
  {
    var next := if want[0].name in actual then p else CreateStep(p, want[0]);
    var q := CreateMissing(next, actual, want[1..]).host;
    VrfNamesStep(want);
    CreateMissingHost(next, actual, want[1..]);
    if want[0].name != n { CreatedAreFirst(next, actual, want[1..], n); }
    FirstNamedCons(want, n, q.vrfs[n]);
  }

  lemma CreateOne(p: Progress, cfg: VrfConfig)
    ensures cfg.name in p.host.vrfs ==>
              CreateStep(p, cfg) == p.(report := p.report.(errors := p.report.errors + [VrfExists(cfg.name)]))
    ensures cfg.name !in p.host.vrfs ==>
              CreateStep(p, cfg) == Progress(p.host.(vrfs := p.host.vrfs[cfg.name := cfg]),
                                                     p.report.(vrfsCreated := p.report.vrfsCreated + 1))
              && CreateStep(p, cfg).host.vrfs.Keys == p.host.vrfs.Keys + {cfg.name}
  {
  }

  /** The report counts up by `n` created VRFs and otherwise gains only errors. */
  predicate CreatedMore(before: Report, after: Report, n: nat) {
    after == before.(vrfsCreated := before.vrfsCreated + n, errors := after.errors)
  }

  lemma NoneCreated(r: Report, have: set<string>)
    ensures CreatedMore(r, r, |VrfNames([]) - have|)
  {
    assert VrfNames([]) - have == {};
  }

  lemma CreateOneReport(p: Progress, cfg: VrfConfig, have: set<string>, tail: set<string>)
    requires have == p.host.vrfs.Keys
    ensures var next := CreateStep(p, cfg);
            && next.host.vrfs.Keys == have + {cfg.name}
            && forall r | CreatedMore(next.report, r, |tail - (have + {cfg.name})|) ::
                 CreatedMore(p.report, r, |({cfg.name} + tail) - have|)
  {
    NewKeysStep(cfg.name, tail, have);
    CreateOne(p, cfg);
    if cfg.name in have { assert have + {cfg.name} == have; }
  }

  lemma {:induction false} CreateMissingReport(p: Progress, have: set<string>, actual: set<string>,
                                               want: seq<VrfConfig>)
    requires have == p.host.vrfs.Keys && actual <= have
    ensures CreatedMore(p.report, CreateMissing(p, actual, want).report, |VrfNames(want) - have|)
    decreases |want|
  {
    hide VrfNames, CreateStep, CreatedMore;
    if want == [] {
      NoneCreated(p.report, have);
    } else {
      var cfg, tail := want[0], VrfNames(want[1..]);
      VrfNamesStep(want);
      if cfg.name in actual {
        NewKeysStep(cfg.name, tail, have);
        CreateMissingReport(p, have, actual, want[1..]);
      } else {
        CreateOneReport(p, cfg, have, tail);
        CreateMissingReport(CreateStep(p, cfg), have + {cfg.name}, actual, want[1..]);
      }
    }
  }

  lemma {:induction false} CreateMissingErrors(p: Progress, actual: set<string>, want: seq<VrfConfig>)
    requires actual <= p.host.vrfs.Keys
    ensures var q := CreateMissing(p, actual, want);
            && |p.report.errors| <= |q.report.errors|
            && (|q.report.errors| == |p.report.errors| <==> !Clash(p.host.vrfs.Keys, actual, NameSeq(want)))
            && (|q.report.errors| == |p.report.errors| ==> q.report.errors == p.report.errors)
    decreases |want|
  {
    if want != [] {
      var next := if want[0].name in actual then p else CreateStep(p, want[0]);
      VrfNamesStep(want);
      ClashStep(p.host.vrfs.Keys, actual, NameSeq(want));
      CreateMissingErrors(next, actual, want[1..]);
      if want[0].name in actual {
      } else if want[0].name in p.host.vrfs {
      } else {
        assert next.host.vrfs.Keys == p.host.vrfs.Keys + {want[0].name};
      }
    }
  }

  predicate DistinctNames(list: seq<VrfConfig>) {
    forall i, j | 0 <= i < j < |list| :: list[i].name != list[j].name
  }

  lemma WithoutTwice(h: Host, a: set<string>, b: set<string>)
    ensures Without(Without(h, a), b) == Without(h, a + b)
  {
    assert h.vrfs - a - b == h.vrfs - (a + b);
    assert h.routes - a - b == h.routes - (a + b);
    assert h.acls - a - b == h.acls - (a + b);
  }

  lemma WithoutNone(h: Host)
    ensures Without(h, {}) == h
  {
    assert h.vrfs - {} == h.vrfs && h.routes - {} == h.routes && h.acls - {} == h.acls;
  }

  lemma NamesSplit(listed: seq<VrfConfig>, names: set<string>)
    requires listed != [] && DistinctNames(listed) && names == VrfNames(listed)
    ensures DistinctNames(listed[1..])
    ensures names == {listed[0].name} + VrfNames(listed[1..]) && listed[0].name !in VrfNames(listed[1..])
  {
    VrfNamesStep(listed);
    HeadNameFresh(listed);
  }

  lemma HeadNameFresh(listed: seq<VrfConfig>)
    requires listed != [] && DistinctNames(listed)
    ensures listed[0].name !in VrfNames(listed[1..])
  {
    forall n | n in VrfNames(listed[1..]) ensures n != listed[0].name {
      var v :| v in listed[1..] && v.name == n;
      var i :| 0 <= i < |listed[1..]| && listed[1..][i] == v;
      assert listed[i + 1].name == n;
    }
  }

  lemma DeleteOne(p: Progress, name: string)
    requires name in p.host.vrfs
    ensures DeleteStep(p, name) == Progress(Without(p.host, {name}), p.report.(vrfsDeleted := p.report.vrfsDeleted + 1))
    ensures DeleteStep(p, name).host.vrfs.Keys == p.host.vrfs.Keys - {name}
  {
  }

  lemma {:induction false} DeleteStaleEffect(p: Progress, desired: set<string>, listed: seq<VrfConfig>,
                                             names: set<string>)
    requires DistinctNames(listed) && names == VrfNames(listed) && names <= p.host.vrfs.Keys
    ensures DeleteStale(p, desired, listed)
         == Progress(Without(p.host, names - desired),
                     p.report.(vrfsDeleted := p.report.vrfsDeleted + |names - desired|))
    decreases |listed|
  {
    if listed == [] {
      assert names - desired == {};
      WithoutNone(p.host);
    } else {
      var name, tail := listed[0].name, VrfNames(listed[1..]);
      NamesSplit(listed, names);
      StaleKeysStep(name, tail, desired);
      if name in desired {
        DeleteStaleEffect(p, desired, listed[1..], tail);
      } else {
        DeleteOne(p, name);
        var next := DeleteStep(p, name);
        DeleteStaleEffect(next, desired, listed[1..], tail);
        WithoutTwice(p.host, {name}, tail - desired);
      }
    }
  }

  lemma ListedNames(listed: seq<VrfConfig>, keys: seq<string>, h: Host)
    requires HostInv(h) && ListedBy(listed, keys, h.vrfs)
    ensures DistinctNames(listed) && VrfNames(listed) == h.vrfs.Keys
  {
    forall n ensures n in VrfNames(listed) <==> n in h.vrfs.Keys {
      if n in h.vrfs.Keys {
        assert n in keys;
        var i :| 0 <= i < |keys| && keys[i] == n;
        assert listed[i] in listed && listed[i].name == n;
      }
    }
  }

  ghost function RestrictedTo(h: Host, want: set<string>)
    : (map<string, seq<RouteConfig>>, map<string, seq<AclConfig>>)
  {
    (h.routes - (h.vrfs.Keys - want), h.acls - (h.vrfs.Keys - want))
  }

  lemma VrfPhaseKeepsInv(h: Host, d: Desired, listed: seq<VrfConfig>)
    requires HostInv(h)
    ensures HostInv(VrfPhase(Progress(h, EMPTY_REPORT), d, listed).host)
  {
    var start := Progress(h, EMPTY_REPORT);
    CreateMissingKeepsInv(start, VrfNames(listed), d.vrfs);
    DeleteStaleKeepsInv(CreateMissing(start, VrfNames(listed), d.vrfs), VrfNames(d.vrfs), listed);
  }

  lemma KeptVrfs(h: Host, q: Host, want: set<string>)
    requires q.vrfs.Keys == h.vrfs.Keys + want && q.routes == h.routes && q.acls == h.acls
    requires forall n | n in h.vrfs :: q.vrfs[n] == h.vrfs[n]
    ensures var kept := Without(q, h.vrfs.Keys - want);
            && kept.vrfs.Keys == want
            && (forall n | n in want :: kept.vrfs[n] == q.vrfs[n])
            && (forall n | n in h.vrfs && n in want :: kept.vrfs[n] == h.vrfs[n])
            && (kept.routes, kept.acls) == RestrictedTo(h, want)
  {
  }

  /** After the VRF loops the table holds exactly the desired names; what was kept is untouched. */
  lemma VrfPhaseHost(h: Host, d: Desired, listed: seq<VrfConfig>, keys: seq<string>)
    requires HostInv(h) && ListedBy(listed, keys, h.vrfs)
    ensures var want := VrfNames(d.vrfs);
            var q := VrfPhase(Progress(h, EMPTY_REPORT), d, listed);
            && HostInv(q.host)
            && q.host.vrfs.Keys == want
            && (forall n | n in h.vrfs && n in want :: q.host.vrfs[n] == h.vrfs[n])
            && (forall n | n in want && n !in h.vrfs :: FirstNamed(d.vrfs, n, q.host.vrfs[n]))
            && (q.host.routes, q.host.acls) == RestrictedTo(h, want)
  {
    hide HostInv, ListedBy, FirstNamed;
    ListedNames(listed, keys, h);
    VrfPhaseKeepsInv(h, d, listed);
    var start := Progress(h, EMPTY_REPORT);
    CreateMissingHost(start, h.vrfs.Keys, d.vrfs);
    var created := CreateMissing(start, h.vrfs.Keys, d.vrfs);
    DeleteStaleEffect(created, VrfNames(d.vrfs), listed, h.vrfs.Keys);
    KeptVrfs(h, created.host, VrfNames(d.vrfs));
    forall n | n in VrfNames(d.vrfs) && n !in h.vrfs ensures FirstNamed(d.vrfs, n, created.host.vrfs[n]) {
      CreatedAreFirst(start, h.vrfs.Keys, d.vrfs, n);
    }
  }

  /** The VRF counters are the sizes of the two set differences; errors only for repeated missing names. */
  lemma VrfPhaseReport(h: Host, d: Desired, listed: seq<VrfConfig>, keys: seq<string>)
    requires HostInv(h) && ListedBy(listed, keys, h.vrfs)
    ensures var want := VrfNames(d.vrfs);
            var r := VrfPhase(Progress(h, EMPTY_REPORT), d, listed).report;
            && r == EMPTY_REPORT.(vrfsCreated := |want - h.vrfs.Keys|, vrfsDeleted := |h.vrfs.Keys - want|,
                                  errors := r.errors)
            && (r.errors == [] <==> !Clash(h.vrfs.Keys, h.vrfs.Keys, NameSeq(d.vrfs)))
  {
    hide HostInv, Clash, ListedBy;
    ListedNames(listed, keys, h);
    var start := Progress(h, EMPTY_REPORT);
    CreateMissingHost(start, h.vrfs.Keys, d.vrfs);
    CreateMissingReport(start, h.vrfs.Keys, h.vrfs.Keys, d.vrfs);
    CreateMissingErrors(start, h.vrfs.Keys, d.vrfs);
    var created := CreateMissing(start, h.vrfs.Keys, d.vrfs);
    DeleteStaleEffect(created, VrfNames(d.vrfs), listed, h.vrfs.Keys);
  }
}
