/** Startup activation: rounds over the enabled plugins until one loads nothing
    (application_context/plugin_state_context.go). */
module PluginActivation {
  import opened Sequences

  /** What a startup run depends on: each discovered plugin's declared dependencies, and
      which plugins load when tried. */
  datatype Plugins = Plugins(manifests: map<string, seq<string>>, loads: set<string>)

  datatype StateRow = StateRow(name: string, enabled: bool)

  /** A plugin with no discovered manifest waits for nothing. */
  predicate Ready(p: Plugins, name: string, loaded: set<string>) {
    name in p.manifests ==> forall d :: d in p.manifests[name] ==> d in loaded
  }

  ghost predicate Closed(p: Plugins, enabled: set<string>, s: set<string>) {
    forall n :: n in enabled && n in p.loads && Ready(p, n, s) ==> n in s
  }

  /** The least set closed under "enabled, dependencies loaded, load succeeds". */
  ghost predicate IsLeast(p: Plugins, enabled: set<string>, s: set<string>) {
    Closed(p, enabled, s) && forall t :: Closed(p, enabled, t) ==> s <= t
  }

  lemma LeastIsUnique(p: Plugins, enabled: set<string>, s: set<string>, t: set<string>)
    requires IsLeast(p, enabled, s) && IsLeast(p, enabled, t)
    ensures s == t
  {
    assert s <= t && t <= s;
  }

  lemma MoreLoadedStillReady(p: Plugins, name: string, s: set<string>, t: set<string>)
    requires Ready(p, name, s) && s <= t
    ensures Ready(p, name, t)
  {
  }

  function EnabledNames(rows: seq<StateRow>): (names: seq<string>)
    ensures forall n :: n in names <==> StateRow(n, true) in rows
  {
    if rows == [] then []
    else
      var names, last := EnabledNames(rows[..|rows| - 1]), rows[|rows| - 1];
      if last.enabled then names + [last.name] else names
  }

  /** The unique index on plugin_name. */
  predicate UniqueNames(rows: seq<StateRow>) {
    forall i, j :: 0 <= i < j < |rows| ==> rows[i].name != rows[j].name
  }

  lemma {:induction false} EnabledNamesDistinct(rows: seq<StateRow>)
    requires UniqueNames(rows)
    ensures Distinct(EnabledNames(rows))
  {
    if rows != [] {
      var init, last := rows[..|rows| - 1], rows[|rows| - 1];
      EnabledNamesDistinct(init);
      assert StateRow(last.name, true) !in init;
    }
  }

  function SetOf(names: seq<string>): set<string> {
    set n | n in names
  }

  method UnmetDependencies(p: Plugins, name: string, loaded: set<string>) returns (unmet: seq<string>)
    ensures forall d :: d in unmet <==> name in p.manifests && d in p.manifests[name] && d !in loaded
    ensures unmet == [] <==> Ready(p, name, loaded)
  {
    unmet := [];
    if name !in p.manifests {
      return;
    }
    var deps := p.manifests[name];
    for i := 0 to |deps|
      invariant forall d :: d in unmet <==> d in deps[..i] && d !in loaded
    {
      assert deps[..i + 1] == deps[..i] + [deps[i]];
      if deps[i] !in loaded {
        unmet := unmet + [deps[i]];
      }
    }
    assert deps[..|deps|] == deps;
    assert unmet != [] ==> unmet[0] in unmet;
  }

  /** Every plugin in the log was tried once, with its dependencies loaded by then. */
  ghost predicate TriedInOrder(p: Plugins, tried: seq<string>) {
    && Distinct(tried)
    && forall i :: 0 <= i < |tried| ==> Ready(p, tried[i], SetOf(tried[..i]) * p.loads)
  }

  lemma TriedOneMore(p: Plugins, tried: seq<string>, name: string)
    requires TriedInOrder(p, tried) && name !in tried && Ready(p, name, SetOf(tried) * p.loads)
    ensures TriedInOrder(p, tried + [name])
    ensures SetOf(tried + [name]) == SetOf(tried) + {name}
  {
    var longer := tried + [name];
    forall i | 0 <= i < |longer| ensures Ready(p, longer[i], SetOf(longer[..i]) * p.loads) {
      if i < |tried| {
        assert longer[..i] == tried[..i];
      } else {
        assert longer[..i] == tried;
      }
    }
  }

  /** Whatever has been loaded so far belongs to every closed set. */
  lemma {:induction false} TriedAreNeeded(p: Plugins, enabled: set<string>, tried: seq<string>, s: set<string>)
    requires TriedInOrder(p, tried) && SetOf(tried) <= enabled && Closed(p, enabled, s)
    ensures SetOf(tried) * p.loads <= s
  {
    if tried != [] {
      var init, last := tried[..|tried| - 1], tried[|tried| - 1];
      assert tried == init + [last];
      assert forall i :: 0 <= i <= |init| ==> init[..i] == tried[..i];
      assert forall n :: n in init ==> n in SetOf(tried);
      TriedAreNeeded(p, enabled, init, s);
      if last in p.loads {
        MoreLoadedStillReady(p, last, SetOf(init) * p.loads, s);
        assert last in SetOf(tried);
      }
    }
  }

  /** The state between rounds: each enabled plugin has been tried or is still waiting. */
  ghost predicate Sorted(p: Plugins, names: seq<string>, tried: seq<string>, remaining: seq<string>,
    loaded: set<string>, failed: set<string>)
  {
    && TriedInOrder(p, tried) && Distinct(remaining)
    && (forall n :: n in names <==> n in tried || n in remaining)
    && (forall n :: n in tried ==> n !in remaining)
    && loaded == SetOf(tried) * p.loads && failed == SetOf(tried) - p.loads
  }

  lemma SortedIsLeast(p: Plugins, names: seq<string>, tried: seq<string>, remaining: seq<string>,
    loaded: set<string>, failed: set<string>)
    requires Sorted(p, names, tried, remaining, loaded, failed)
    requires forall n :: n in remaining ==> !Ready(p, n, loaded)
    ensures IsLeast(p, SetOf(names), loaded)
    ensures forall n :: n in tried <==> n in names && Ready(p, n, loaded)
  {
    forall s | Closed(p, SetOf(names), s) ensures loaded <= s {
      TriedAreNeeded(p, SetOf(names), tried, s);
    }
    forall n | n in tried ensures Ready(p, n, loaded) {
      var i :| 0 <= i < |tried| && tried[i] == n;
      MoreLoadedStillReady(p, n, SetOf(tried[..i]) * p.loads, loaded);
    }
  }

  /** The loaded set is the least fixpoint, so it does not depend on the order of the
      rows; a plugin is tried exactly when its dependencies end up loaded, once, and only
      after them; and what is left over is reported as stalled. */
  method ActivateEnabledPlugins(p: Plugins, rows: seq<StateRow>)
    returns (loaded: set<string>, failed: set<string>, stalled: seq<string>, tried: seq<string>)
    requires UniqueNames(rows)
    ensures IsLeast(p, SetOf(EnabledNames(rows)), loaded)
    ensures TriedInOrder(p, tried)
    ensures forall n :: n in tried <==> StateRow(n, true) in rows && Ready(p, n, loaded)
    ensures loaded == SetOf(tried) * p.loads && failed == SetOf(tried) - p.loads
    ensures Distinct(stalled)
    ensures forall n :: n in stalled <==> StateRow(n, true) in rows && !Ready(p, n, loaded)
  {
    var remaining := [];
    for i := 0 to |rows|
      invariant remaining == EnabledNames(rows[..i])
    {
      assert rows[..i + 1][..i] == rows[..i];
      if rows[i].enabled {
        remaining := remaining + [rows[i].name];
      }
    }
    assert rows[..|rows|] == rows;
    var names := remaining;
    EnabledNamesDistinct(rows);
    loaded, failed, tried := {}, {}, [];
    while |remaining| > 0
      invariant Sorted(p, names, tried, remaining, loaded, failed)
      decreases |remaining|
    {
      var waiting, progressed;
      waiting, loaded, failed, tried, progressed := Round(p, names, remaining, loaded, failed, tried);
      remaining := waiting;
      if !progressed {
        break;
      }
    }
    stalled := remaining;
    SortedIsLeast(p, names, tried, remaining, loaded, failed);
  }

  /** One round, in list order; a plugin loaded early in it can free a later one. */
  method Round(p: Plugins, names: seq<string>, remaining: seq<string>, loaded0: set<string>,
    failed0: set<string>, tried0: seq<string>)
    returns (waiting: seq<string>, loaded: set<string>, failed: set<string>, tried: seq<string>, progressed: bool)
    requires Sorted(p, names, tried0, remaining, loaded0, failed0)
    ensures Sorted(p, names, tried, waiting, loaded, failed)
    ensures |waiting| <= |remaining|
    ensures progressed ==> |waiting| < |remaining|
    ensures !progressed ==> forall n :: n in waiting ==> !Ready(p, n, loaded)
  {
    waiting, loaded, failed, tried, progressed := [], loaded0, failed0, tried0, false;
    for i := 0 to |remaining|
      invariant Sorted(p, names, tried, waiting + remaining[i..], loaded, failed)
      invariant |waiting| <= i && (progressed ==> |waiting| < i)
      invariant !progressed ==> forall n :: n in waiting ==> !Ready(p, n, loaded)
    {
      var name := remaining[i];
      assert waiting + remaining[i..] == (waiting + [name]) + remaining[i + 1..];
      var unmet := UnmetDependencies(p, name, loaded);
      if |unmet| > 0 {
        waiting := waiting + [name];
        continue;
      }
      TryNext(p, names, tried, waiting, name, remaining[i + 1..], loaded, failed);
      tried := tried + [name];
      if name in p.loads {
        loaded := loaded + {name};
        progressed := true;
        continue;
      }
      failed := failed + {name};
    }
    assert waiting + remaining[|remaining|..] == waiting;
  }

  lemma TryNext(p: Plugins, names: seq<string>, tried: seq<string>, waiting: seq<string>, name: string,
    rest: seq<string>, loaded: set<string>, failed: set<string>)
    requires Sorted(p, names, tried, waiting + [name] + rest, loaded, failed) && Ready(p, name, loaded)
    ensures Sorted(p, names, tried + [name], waiting + rest,
      if name in p.loads then loaded + {name} else loaded, if name in p.loads then failed else failed + {name})
  {
    var before, after := waiting + [name] + rest, waiting + rest;
    assert before[|waiting|] == name;
    TriedOneMore(p, tried, name);
    forall n ensures n in before <==> n == name || n in after { }
    forall k | 0 <= k < |after| ensures after[k] != name {
      assert after[k] == before[if k < |waiting| then k else k + 1];
    }
    assert Distinct(after) by {
      assert forall k :: 0 <= k < |after| ==> after[k] == before[if k < |waiting| then k else k + 1];
    }
  }

  // ---- the warning about stalled plugins ----

  datatype Reason = NoSuchPlugin | FailedToLoad | AlsoWaiting | NotEnabled | NotLoaded

  function StalledDependencyReason(p: Plugins, dep: string, waiting: set<string>, enabled: set<string>,
    failed: set<string>): Reason
  {
    if dep !in p.manifests then NoSuchPlugin
    else if dep in failed then FailedToLoad
    else if dep in waiting then AlsoWaiting
    else if dep !in enabled then NotEnabled
    else NotLoaded
  }

  /** The catch-all reason is never given: a dependency that did not load is always one
      of the four the warning can name, and each of them means what it says. */
  lemma EveryStallIsExplained(p: Plugins, rows: seq<StateRow>, loaded: set<string>, failed: set<string>,
    stalled: seq<string>, tried: seq<string>, dep: string)
    requires forall n :: n in tried <==> StateRow(n, true) in rows && Ready(p, n, loaded)
    requires forall n :: n in stalled <==> StateRow(n, true) in rows && !Ready(p, n, loaded)
    requires loaded == SetOf(tried) * p.loads && failed == SetOf(tried) - p.loads && dep !in loaded
    ensures var reason := StalledDependencyReason(p, dep, SetOf(stalled), SetOf(EnabledNames(rows)), failed);
      && reason != NotLoaded && (reason == NoSuchPlugin <==> dep !in p.manifests)
      && (reason == FailedToLoad ==> dep in tried && dep !in p.loads)
      && (reason == AlsoWaiting ==> StateRow(dep, true) in rows && exists d :: d in p.manifests[dep] && d !in loaded)
      && (reason == NotEnabled ==> StateRow(dep, true) !in rows)
  {
    if dep in EnabledNames(rows) && dep !in stalled {
      assert dep in SetOf(tried);
    }
  }
}
