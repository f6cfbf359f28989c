/** The `vmware_drift_report` state's `report` function: it fetches a
    per-host firewall configuration, a per-host advanced configuration and a
    storage-policy result from three execution-module functions, joins the
    first two on the host key, and wraps the join in a state-return envelope.

    The payloads are opaque: `K` is the host key, `F`, `A` and `S` are what
    the three collaborators return per host or in total, `C` is a keyword
    configuration and `E` an exception a collaborator raises. */
module DriftReport {
  import opened PyDict

  /** The names under which `report` looks its collaborators up. */
  const FirewallConfigTarget: string := "vmware_esxi.firewall_config"
  const AdvancedConfigTarget: string := "vmware_esxi.advanced_config"
  const StoragePolicyTarget: string := "vsphere_storage_policy.storage_policy"

  /** The message of the TypeError Python raises when a dict is hashed. */
  const UnhashableDict: string := "unhashable type: 'dict'"

  /** What one call of a collaborator does: return a value or raise. */
  datatype Reply<T, E> = Returned(value: T) | Raised(cause: E)

  /** The three functions `report` reaches through the loader's registry,
      each applied to the keyword arguments its configuration unpacks to. */
  datatype Salt<!C, K, F, A, S, E> = Salt(
    getFirewallConfig: C -> Reply<PyDict<K, F>, E>,
    getAdvancedConfig: C -> Reply<PyDict<K, A>, E>,
    getStoragePolicy: C -> Reply<S, E>)

  /** One collaborator call: the registry name and the keyword arguments. */
  datatype Invocation<C> = Invocation(target: string, kwargs: C)

  /** The exceptions that can leave `report`. */
  datatype Exception<K, E> =
    | KeyError(key: K)                // `advanced_result[host]` on a missing host
    | TypeError(message: string)      // a dict placed in a set display
    | CollaboratorError(cause: E)     // raised by a collaborator, not caught

  /** The end of a Python evaluation: a value, or an exception. */
  datatype Outcome<T, K, E> = Return(value: T) | Throw(exception: Exception<K, E>)

  /** An evaluation together with the collaborator calls it made, in order. */
  datatype Run<C, T, K, E> = Run(calls: seq<Invocation<C>>, outcome: Outcome<T, K, E>)

  /** The three collaborator results, once all of them have returned. */
  datatype Fetched<K, F, A, S> =
    Fetched(firewallResult: PyDict<K, F>, advancedResult: PyDict<K, A>, storagePolicyResult: S)

  /** One value of `esxi_result`: the dict with keys "firewall_config" and
      "advanced_config". */
  datatype HostEntry<F, A> = HostEntry(firewallConfig: F, advancedConfig: A)

  /** The "changes" dict, with keys "esxi" and "storagePolicies". */
  datatype Changes<K, F, A, S> = Changes(esxi: PyDict<K, HostEntry<F, A>>, storagePolicies: S)

  /** The state return dict, with keys "name", "result", "comment" and "changes". */
  datatype Envelope<K, F, A, S> = Envelope(name: string, result: bool, comment: string, changes: Changes<K, F, A, S>)

  /** The join either builds `esxi_result` or stops at a host it cannot look up. */
  datatype Join<K, F, A> = Joined(esxi: PyDict<K, HostEntry<F, A>>) | MissingHost(host: K)

  // ---------------------------------------------------------------------
  // Fetching the three results

  /** The calls `report` makes when none of them raises. */
  function AllInvocations<C>(firewallConfig: C, advancedConfig: C, storagePolicy: C): seq<Invocation<C>>
  {
    [Invocation(FirewallConfigTarget, firewallConfig),
     Invocation(AdvancedConfigTarget, advancedConfig),
     Invocation(StoragePolicyTarget, storagePolicy)]
  }

  /** The three registry calls, one after the other; the first exception
      propagates and the calls after it are not made. */
  function Fetch<C, K, F, A, S, E>(salt: Salt<C, K, F, A, S, E>, firewallConfig: C, advancedConfig: C, storagePolicy: C)
    : (r: Run<C, Fetched<K, F, A, S>, K, E>)
    ensures 1 <= |r.calls| <= 3
    ensures r.calls == AllInvocations(firewallConfig, advancedConfig, storagePolicy)[..|r.calls|]
    ensures |r.calls| >= 2 <==> salt.getFirewallConfig(firewallConfig).Returned?
    ensures |r.calls| == 3 <==>
      salt.getFirewallConfig(firewallConfig).Returned? && salt.getAdvancedConfig(advancedConfig).Returned?
    ensures r.outcome.Return? <==>
      && salt.getFirewallConfig(firewallConfig).Returned?
      && salt.getAdvancedConfig(advancedConfig).Returned?
      && salt.getStoragePolicy(storagePolicy).Returned?
    ensures r.outcome.Return? ==> r.outcome.value == Fetched(
      salt.getFirewallConfig(firewallConfig).value,
      salt.getAdvancedConfig(advancedConfig).value,
      salt.getStoragePolicy(storagePolicy).value)
    ensures salt.getFirewallConfig(firewallConfig).Raised? ==>
      r.outcome == Throw(CollaboratorError(salt.getFirewallConfig(firewallConfig).cause))
    ensures |r.calls| >= 2 && salt.getAdvancedConfig(advancedConfig).Raised? ==>
      r.outcome == Throw(CollaboratorError(salt.getAdvancedConfig(advancedConfig).cause))
    ensures |r.calls| == 3 && salt.getStoragePolicy(storagePolicy).Raised? ==>
      r.outcome == Throw(CollaboratorError(salt.getStoragePolicy(storagePolicy).cause))
  {
    var calls := AllInvocations(firewallConfig, advancedConfig, storagePolicy);
    match salt.getFirewallConfig(firewallConfig)
    case Raised(e) => Run(calls[..1], Throw(CollaboratorError(e)))
    case Returned(firewallResult) =>
      match salt.getAdvancedConfig(advancedConfig)
      case Raised(e) => Run(calls[..2], Throw(CollaboratorError(e)))
      case Returned(advancedResult) =>
        match salt.getStoragePolicy(storagePolicy)
        case Raised(e) => Run(calls, Throw(CollaboratorError(e)))
        case Returned(storagePolicyResult) =>
          Run(calls, Return(Fetched(firewallResult, advancedResult, storagePolicyResult)))
  }

  /** No collaborator is called twice, and each call carries its own
      configuration; when the fetch completes, all three were called. */
  lemma FetchCallsEachOnce<C, K, F, A, S, E>(salt: Salt<C, K, F, A, S, E>, firewallConfig: C, advancedConfig: C, storagePolicy: C)
    ensures var r := Fetch(salt, firewallConfig, advancedConfig, storagePolicy);
      && (forall i, j :: 0 <= i < j < |r.calls| ==> r.calls[i].target != r.calls[j].target)
      && (forall i :: 0 <= i < |r.calls| && r.calls[i].target == FirewallConfigTarget ==> r.calls[i].kwargs == firewallConfig)
      && (forall i :: 0 <= i < |r.calls| && r.calls[i].target == AdvancedConfigTarget ==> r.calls[i].kwargs == advancedConfig)
      && (forall i :: 0 <= i < |r.calls| && r.calls[i].target == StoragePolicyTarget ==> r.calls[i].kwargs == storagePolicy)
      && (r.outcome.Return? ==> r.calls == AllInvocations(firewallConfig, advancedConfig, storagePolicy))
  {
  }

  // ---------------------------------------------------------------------
  // The join: `{host: {...} for host in firewall_result}`

  /** The comprehension after it has visited the first `n` hosts of the
      firewall result, in iteration order.  For each host it reads the
      firewall entry (always present) and then the advanced entry. */
  function JoinPrefix<K, F, A>(firewallResult: PyDict<K, F>, advancedResult: PyDict<K, A>, n: nat): Join<K, F, A>
    requires n <= |firewallResult.order|
  {
    if n == 0 then Joined(Empty())
    else
      match JoinPrefix(firewallResult, advancedResult, n - 1)
      case MissingHost(h) => MissingHost(h)
      case Joined(esxi) =>
        var host := firewallResult.order[n - 1];
        assert host in firewallResult.entries by {
          assert host in firewallResult.order;
        }
        if host in advancedResult.entries then
          Joined(SetItem(esxi, host, HostEntry(firewallResult.entries[host], advancedResult.entries[host])))
        else MissingHost(host)
  }

  /** The first `n` firewall hosts all have an advanced entry. */
  ghost predicate AllPresent<K, F, A>(firewallResult: PyDict<K, F>, advancedResult: PyDict<K, A>, n: nat)
    requires n <= |firewallResult.order|
  {
    forall i :: 0 <= i < n ==> firewallResult.order[i] in advancedResult.entries
  }

  /** After `n` hosts the comprehension is still running exactly when all of
      them were found. */
  lemma {:induction false} JoinPrefixJoinedIff<K, F, A>(firewallResult: PyDict<K, F>, advancedResult: PyDict<K, A>, n: nat)
    requires n <= |firewallResult.order|
    ensures JoinPrefix(firewallResult, advancedResult, n).Joined? <==> AllPresent(firewallResult, advancedResult, n)
  {
    if n > 0 {
      JoinPrefixJoinedIff(firewallResult, advancedResult, n - 1);
      var host := firewallResult.order[n - 1];
      assert AllPresent(firewallResult, advancedResult, n) <==>
        AllPresent(firewallResult, advancedResult, n - 1) && host in advancedResult.entries;
    }
  }

  /** While it is running, the comprehension holds the hosts visited so far,
      in their order. */
  lemma {:induction false} JoinPrefixOrder<K, F, A>(firewallResult: PyDict<K, F>, advancedResult: PyDict<K, A>, n: nat)
    requires n <= |firewallResult.order|
    ensures var r := JoinPrefix(firewallResult, advancedResult, n);
      r.Joined? ==> r.esxi.order == firewallResult.order[..n]
  {
    if n > 0 {
      var prev := JoinPrefix(firewallResult, advancedResult, n - 1);
      var host := firewallResult.order[n - 1];
      if prev.Joined? && host in advancedResult.entries {
        JoinPrefixOrder(firewallResult, advancedResult, n - 1);
        NotYetVisited(firewallResult.order, n - 1);
        assert host !in prev.esxi.entries;
        PrefixExtends(firewallResult.order, n);
      }
    }
  }

  /** Visiting one more key extends the visited prefix by that key. */
  lemma PrefixExtends<K>(order: seq<K>, n: nat)
    requires 0 < n <= |order|
    ensures order[..n] == order[..n - 1] + [order[n - 1]]
  {
  }

  /** With distinct keys, the key at index `n` is not among those before it. */
  lemma NotYetVisited<K>(order: seq<K>, n: nat)
    requires n < |order|
    requires forall i, j :: 0 <= i < j < |order| ==> order[i] != order[j]
    ensures order[n] !in order[..n]
  {
  }

  /** Every host the comprehension holds is mapped to its firewall value
      and its advanced value, unchanged. */
  lemma {:induction false} JoinPrefixEntries<K, F, A>(firewallResult: PyDict<K, F>, advancedResult: PyDict<K, A>, n: nat)
    requires n <= |firewallResult.order|
    ensures var r := JoinPrefix(firewallResult, advancedResult, n);
      r.Joined? ==>
        forall h :: h in r.esxi.entries ==>
          && h in firewallResult.entries && h in advancedResult.entries
          && r.esxi.entries[h] == HostEntry(firewallResult.entries[h], advancedResult.entries[h])
  {
    var r := JoinPrefix(firewallResult, advancedResult, n);
    if n > 0 && r.Joined? {
      JoinPrefixEntries(firewallResult, advancedResult, n - 1);
      var prev := JoinPrefix(firewallResult, advancedResult, n - 1);
      var host := firewallResult.order[n - 1];
      assert prev.Joined? && host in advancedResult.entries;
      assert host in firewallResult.order;
      var entry := HostEntry(firewallResult.entries[host], advancedResult.entries[host]);
      assert r.esxi.entries == prev.esxi.entries[host := entry];
      forall h | h in r.esxi.entries
        ensures h in firewallResult.entries && h in advancedResult.entries
        ensures r.esxi.entries[h] == HostEntry(firewallResult.entries[h], advancedResult.entries[h])
      {
        if h != host {
          assert h in prev.esxi.entries;
        }
      }
    }
  }

  /** When the comprehension stops, it stops at a host the advanced result
      lacks, and every host visited before it was found. */
  lemma {:induction false} JoinPrefixMissing<K, F, A>(firewallResult: PyDict<K, F>, advancedResult: PyDict<K, A>, n: nat)
    requires n <= |firewallResult.order|
    ensures var r := JoinPrefix(firewallResult, advancedResult, n);
      r.MissingHost? ==>
        && r.host !in advancedResult.entries
        && exists i :: 0 <= i < n && firewallResult.order[i] == r.host && AllPresent(firewallResult, advancedResult, i)
  {
    if n > 0 {
      JoinPrefixMissing(firewallResult, advancedResult, n - 1);
      JoinPrefixJoinedIff(firewallResult, advancedResult, n - 1);
      var r := JoinPrefix(firewallResult, advancedResult, n);
      if r.MissingHost? && JoinPrefix(firewallResult, advancedResult, n - 1).Joined? {
        assert firewallResult.order[n - 1] == r.host;
      }
    }
  }

  /** Lines 32-33: the join keyed by the firewall result.  It succeeds
      exactly when every firewall host has an advanced entry; then it has
      the firewall result's keys, in its order, each mapped to the two
      values unchanged.  Otherwise it stops at the first firewall host, in
      iteration order, that the advanced result lacks. */
  function JoinResults<K, F, A>(firewallResult: PyDict<K, F>, advancedResult: PyDict<K, A>): (r: Join<K, F, A>)
    ensures r.Joined? <==> firewallResult.entries.Keys <= advancedResult.entries.Keys
    ensures r.Joined? ==> r.esxi.entries.Keys == firewallResult.entries.Keys
    ensures r.Joined? ==> r.esxi.order == firewallResult.order
    ensures r.Joined? ==> forall h :: h in firewallResult.entries ==>
      r.esxi.entries[h] == HostEntry(firewallResult.entries[h], advancedResult.entries[h])
    ensures r.MissingHost? ==> r.host in firewallResult.entries && r.host !in advancedResult.entries
    ensures r.MissingHost? ==>
      exists i :: 0 <= i < |firewallResult.order| && firewallResult.order[i] == r.host &&
        AllPresent(firewallResult, advancedResult, i)
  {
    var n := |firewallResult.order|;
    JoinPrefixJoinedIff(firewallResult, advancedResult, n);
    JoinPrefixOrder(firewallResult, advancedResult, n);
    JoinPrefixEntries(firewallResult, advancedResult, n);
    JoinPrefixMissing(firewallResult, advancedResult, n);
    assert firewallResult.order[..n] == firewallResult.order;
    assert AllPresent(firewallResult, advancedResult, n) <==> firewallResult.entries.Keys <= advancedResult.entries.Keys by {
      assert forall h :: h in firewallResult.entries ==> exists i :: 0 <= i < n && firewallResult.order[i] == h;
    }
    JoinPrefix(firewallResult, advancedResult, n)
  }

  /** Hosts that only the advanced result knows are not in the join. */
  lemma JoinDropsAdvancedOnlyHosts<K, F, A>(firewallResult: PyDict<K, F>, advancedResult: PyDict<K, A>, h: K)
    requires h in advancedResult.entries && h !in firewallResult.entries
    ensures JoinResults(firewallResult, advancedResult).Joined? ==> h !in JoinResults(firewallResult, advancedResult).esxi.entries
  {
  }

  /** An empty firewall result joins to the empty dict, whatever the
      advanced result holds. */
  lemma JoinOfEmptyFirewall<K, F, A>(firewallResult: PyDict<K, F>, advancedResult: PyDict<K, A>)
    requires firewallResult.entries == map[]
    ensures JoinResults(firewallResult, advancedResult) == Joined(Empty())
  {
    EmptyIffNoOrder(firewallResult);
  }

  // ---------------------------------------------------------------------
  // The envelope and its assembly

  /** The state return the function evidently means to build at lines
      35-36, with the per-host join placed directly under "esxi". */
  function BuildEnvelope<K, F, A, S>(name: string, esxi: PyDict<K, HostEntry<F, A>>, storagePolicyResult: S): Envelope<K, F, A, S>
  {
    Envelope(name, true, "", Changes(esxi, storagePolicyResult))
  }

  /** Lines 32-37 as written: the join, then `{esxi_result}`, a set display
      whose only element is a dict.  A dict is unhashable, so building the
      set raises TypeError and the return at line 37 is never reached; the
      join's KeyError, evaluated first, takes precedence. */
  function AssembleAsWritten<K, F, A, S, E>(name: string, fetched: Fetched<K, F, A, S>): (r: Outcome<Envelope<K, F, A, S>, K, E>)
    ensures r.Throw?
    ensures r == Throw(TypeError(UnhashableDict)) <==>
      fetched.firewallResult.entries.Keys <= fetched.advancedResult.entries.Keys
    ensures r.exception.KeyError? <==>
      !(fetched.firewallResult.entries.Keys <= fetched.advancedResult.entries.Keys)
    ensures r.exception.KeyError? ==>
      r.exception.key in fetched.firewallResult.entries && r.exception.key !in fetched.advancedResult.entries
    ensures r.exception.KeyError? ==>
      exists i :: 0 <= i < |fetched.firewallResult.order| && fetched.firewallResult.order[i] == r.exception.key &&
        AllPresent(fetched.firewallResult, fetched.advancedResult, i)
  {
    match JoinResults(fetched.firewallResult, fetched.advancedResult)
    case MissingHost(h) => Throw(KeyError(h))
    case Joined(_) => Throw(TypeError(UnhashableDict))
  }

  /** Lines 32-37 with the join placed directly under "esxi": an envelope
      exactly when every firewall host has an advanced entry, echoing the
      name, reporting success with an empty comment, holding the join keyed
      and ordered by the firewall result with both values unchanged, and
      the storage-policy result unchanged. */
  function AssembleIntended<K, F, A, S, E>(name: string, fetched: Fetched<K, F, A, S>): (r: Outcome<Envelope<K, F, A, S>, K, E>)
    ensures r.Return? <==> fetched.firewallResult.entries.Keys <= fetched.advancedResult.entries.Keys
    ensures r.Return? ==>
      && r.value.name == name
      && r.value.result
      && r.value.comment == ""
      && r.value.changes.storagePolicies == fetched.storagePolicyResult
      && r.value.changes.esxi.entries.Keys == fetched.firewallResult.entries.Keys
      && r.value.changes.esxi.order == fetched.firewallResult.order
      && forall h :: h in fetched.firewallResult.entries ==>
           r.value.changes.esxi.entries[h] ==
             HostEntry(fetched.firewallResult.entries[h], fetched.advancedResult.entries[h])
    ensures r.Throw? ==>
      && r.exception.KeyError?
      && r.exception.key in fetched.firewallResult.entries
      && r.exception.key !in fetched.advancedResult.entries
      && exists i :: 0 <= i < |fetched.firewallResult.order| && fetched.firewallResult.order[i] == r.exception.key &&
           AllPresent(fetched.firewallResult, fetched.advancedResult, i)
  {
    match JoinResults(fetched.firewallResult, fetched.advancedResult)
    case MissingHost(h) => Throw(KeyError(h))
    case Joined(esxi) => Return(BuildEnvelope(name, esxi, fetched.storagePolicyResult))
  }

  /** `report` (lines 17-37) as written: it makes the calls of the fetch,
      passes a collaborator's exception on unchanged, and never returns. */
  function Report<C, K, F, A, S, E>(salt: Salt<C, K, F, A, S, E>, name: string, firewallConfig: C, advancedConfig: C, storagePolicy: C)
    : (r: Run<C, Envelope<K, F, A, S>, K, E>)
    ensures r.calls == Fetch(salt, firewallConfig, advancedConfig, storagePolicy).calls
    ensures r.outcome.Throw?
    ensures Fetch(salt, firewallConfig, advancedConfig, storagePolicy).outcome.Throw? ==>
      r.outcome.exception == Fetch(salt, firewallConfig, advancedConfig, storagePolicy).outcome.exception
  {
    var fetch := Fetch(salt, firewallConfig, advancedConfig, storagePolicy);
    match fetch.outcome
    case Throw(x) => Run(fetch.calls, Throw(x))
    case Return(fetched) => Run(fetch.calls, AssembleAsWritten(name, fetched))
  }

  /** `report` with the set display at line 36 removed: the same calls, a
      collaborator's exception passed on unchanged, and an envelope exactly
      when all three collaborators return and every firewall host has an
      advanced entry. */
  function ReportIntended<C, K, F, A, S, E>(salt: Salt<C, K, F, A, S, E>, name: string, firewallConfig: C, advancedConfig: C, storagePolicy: C)
    : (r: Run<C, Envelope<K, F, A, S>, K, E>)
    ensures r.calls == Fetch(salt, firewallConfig, advancedConfig, storagePolicy).calls
    ensures Fetch(salt, firewallConfig, advancedConfig, storagePolicy).outcome.Throw? ==>
      r.outcome.Throw? &&
      r.outcome.exception == Fetch(salt, firewallConfig, advancedConfig, storagePolicy).outcome.exception
    ensures r.outcome.Return? <==>
      && salt.getFirewallConfig(firewallConfig).Returned?
      && salt.getAdvancedConfig(advancedConfig).Returned?
      && salt.getStoragePolicy(storagePolicy).Returned?
      && salt.getFirewallConfig(firewallConfig).value.entries.Keys <= salt.getAdvancedConfig(advancedConfig).value.entries.Keys
  {
    var fetch := Fetch(salt, firewallConfig, advancedConfig, storagePolicy);
    match fetch.outcome
    case Throw(x) => Run(fetch.calls, Throw(x))
    case Return(fetched) => Run(fetch.calls, AssembleIntended(name, fetched))
  }

  // ---------------------------------------------------------------------
  // Properties of `report` as written

  /** Which exception the as-written `report` raises: the first
      collaborator's exception, in call order; otherwise, once all three
      results are in, the KeyError of line 33 for a firewall host the
      advanced result lacks; otherwise the TypeError of line 36. */
  lemma ReportExceptionPrecedence<C, K, F, A, S, E>(salt: Salt<C, K, F, A, S, E>, name: string, firewallConfig: C, advancedConfig: C, storagePolicy: C)
    ensures var r := Report(salt, name, firewallConfig, advancedConfig, storagePolicy);
      var fw := salt.getFirewallConfig(firewallConfig);
      var adv := salt.getAdvancedConfig(advancedConfig);
      var sp := salt.getStoragePolicy(storagePolicy);
      && (fw.Raised? ==> r.outcome == Throw(CollaboratorError(fw.cause)))
      && (fw.Returned? && adv.Raised? ==> r.outcome == Throw(CollaboratorError(adv.cause)))
      && (fw.Returned? && adv.Returned? && sp.Raised? ==> r.outcome == Throw(CollaboratorError(sp.cause)))
      && (fw.Returned? && adv.Returned? && sp.Returned? ==>
            if fw.value.entries.Keys <= adv.value.entries.Keys then
              r.outcome == Throw(TypeError(UnhashableDict))
            else
              && r.outcome.exception.KeyError?
              && r.outcome.exception.key in fw.value.entries
              && r.outcome.exception.key !in adv.value.entries)
  {
  }

  /** The as-written and the intended `report` make the same calls and raise
      the same exceptions; where the intended one returns its envelope, the
      as-written one raises the TypeError instead. */
  lemma ReportDiffersOnlyBySetDisplay<C, K, F, A, S, E>(salt: Salt<C, K, F, A, S, E>, name: string, firewallConfig: C, advancedConfig: C, storagePolicy: C)
    ensures var asWritten := Report(salt, name, firewallConfig, advancedConfig, storagePolicy);
      var intended := ReportIntended(salt, name, firewallConfig, advancedConfig, storagePolicy);
      && asWritten.calls == intended.calls
      && (intended.outcome.Throw? ==> asWritten.outcome == intended.outcome)
      && (intended.outcome.Return? ==> asWritten.outcome == Throw(TypeError(UnhashableDict)))
  {
  }

  /** A concrete input on which the as-written `report` raises TypeError
      while the intended one returns: all three collaborators return empty
      results. */
  lemma SetDisplayCounterexample()
    ensures var salt: Salt<int, string, int, int, int, int> :=
      Salt(c => Returned(Empty()), c => Returned(Empty()), c => Returned(0));
      && Report(salt, "nightly", 0, 0, 0).outcome == Throw(TypeError(UnhashableDict))
      && ReportIntended(salt, "nightly", 0, 0, 0).outcome.Return?
  {
    var salt: Salt<int, string, int, int, int, int> :=
      Salt(c => Returned(Empty()), c => Returned(Empty()), c => Returned(0));
    JoinOfEmptyFirewall(salt.getFirewallConfig(0).value, salt.getAdvancedConfig(0).value);
  }

  // ---------------------------------------------------------------------
  // Properties of the intended `report`

  /** The envelope of the intended `report`, in terms of what the three
      collaborators returned for their own configurations. */
  lemma IntendedReportEnvelope<C, K, F, A, S, E>(salt: Salt<C, K, F, A, S, E>, name: string, firewallConfig: C, advancedConfig: C, storagePolicy: C)
    requires ReportIntended(salt, name, firewallConfig, advancedConfig, storagePolicy).outcome.Return?
    ensures var env := ReportIntended(salt, name, firewallConfig, advancedConfig, storagePolicy).outcome.value;
      var fw := salt.getFirewallConfig(firewallConfig).value;
      var adv := salt.getAdvancedConfig(advancedConfig).value;
      && env.name == name
      && env.result
      && env.comment == ""
      && env.changes.storagePolicies == salt.getStoragePolicy(storagePolicy).value
      && env.changes.esxi.entries.Keys == fw.entries.Keys
      && env.changes.esxi.order == fw.order
      && forall h :: h in fw.entries ==> env.changes.esxi.entries[h] == HostEntry(fw.entries[h], adv.entries[h])
  {
  }

  /** When all collaborators return but some firewall host has no advanced
      entry, the intended `report` makes all three calls and then raises
      KeyError for the first such host in the firewall result's iteration
      order; it returns no envelope. */
  lemma IntendedReportKeyError<C, K, F, A, S, E>(salt: Salt<C, K, F, A, S, E>, name: string, firewallConfig: C, advancedConfig: C, storagePolicy: C)
    requires salt.getFirewallConfig(firewallConfig).Returned?
    requires salt.getAdvancedConfig(advancedConfig).Returned?
    requires salt.getStoragePolicy(storagePolicy).Returned?
    requires !(salt.getFirewallConfig(firewallConfig).value.entries.Keys <= salt.getAdvancedConfig(advancedConfig).value.entries.Keys)
    ensures var r := ReportIntended(salt, name, firewallConfig, advancedConfig, storagePolicy);
      var fw := salt.getFirewallConfig(firewallConfig).value;
      var adv := salt.getAdvancedConfig(advancedConfig).value;
      && r.outcome.Throw? && r.outcome.exception.KeyError?
      && r.calls == AllInvocations(firewallConfig, advancedConfig, storagePolicy)
      && r.outcome.exception.key !in adv.entries
      && exists i :: 0 <= i < |fw.order| && fw.order[i] == r.outcome.exception.key &&
           AllPresent(fw, adv, i)
  {
  }
}
