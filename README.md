# Drift report aggregation (salt-ext-modules-vmware)

This project models the `vmware_drift_report` state module of the Salt
extension for VMware: its one function, `report(name, firewall_config,
advanced_config, storage_policy)`. The function

1. calls three execution-module functions through the loader's `__salt__`
   registry, each with its own configuration unpacked as keyword arguments:
   `vmware_esxi.firewall_config`, `vmware_esxi.advanced_config` and
   `vsphere_storage_policy.storage_policy`;
2. joins the first two results on the host key with a dict comprehension
   driven by the firewall result's keys, looking each host up in the
   advanced result without checking that it is there;
3. wraps the join in a state-return dict with `name`, `result`, `comment`
   and `changes` (`esxi` and `storagePolicies`).

The model is pure, as the source is: datatypes and functions over maps and
sequences, and lemmas about them. Two files:

- `py_dict.dfy` (module `PyDict`): a Python dict as an insertion order over
  distinct keys plus the key-to-value map (`PyDict<K, V>` is the subset type
  of well-formed ones), with `d[k] = v` (`SetItem`). The order matters here
  because the comprehension visits hosts in the firewall result's iteration
  order: it decides which host the KeyError names, and the order of the
  joined dict.
- `drift_report.dfy` (module `DriftReport`): the collaborators as
  function-valued parameters (`Salt`), each returning `Returned(v)` or
  `Raised(e)`; the three calls with the trace of invocations they make
  (`Fetch`; the trace is the model's own record of the calls, written
  beside them, so "each collaborator is called once, with its own
  configuration" holds of it by construction, while the outcome clauses
  of `Fetch` tie each returned value to the collaborator applied to its
  own configuration); the join (`JoinPrefix`, `JoinResults`); the envelope
  (`BuildEnvelope`); `report` as written (`Report`, with
  `AssembleAsWritten`) and with the set display removed (`ReportIntended`,
  with `AssembleIntended`).

All payloads are opaque type parameters, since the function copies them
without reading them: `K` host key, `F` firewall value per host, `A` advanced
value per host, `S` storage-policy result, `C` a keyword configuration, `E` an
exception raised by a collaborator.

As written, line 36 puts the joined dict inside a set display
`{esxi_result}`. Python must hash the element to build the set, and a dict is
unhashable, so this raises `TypeError` on every path that reaches it: `report`
can never return its envelope. The model keeps that behaviour in `Report` and
gives the evidently intended behaviour, with the join placed directly under
`"esxi"`, in `ReportIntended`; both share the fetch and the join (see
Findings). A host that the firewall result has and the advanced result lacks
makes the comprehension raise `KeyError` for that host; the model keeps this
as the failure, for the first such host in iteration order.

## Model

| member | source | states |
|---|---|---|
| `DriftReport.Fetch` | src/saltext/vmware/states/drift_report.py:25-30 | The calls are made in the order firewall, advanced, storage policy, each with its own configuration unchanged; a call is made only if every earlier one returned; the first exception propagates unchanged; when all three return, their three values are what the assembly receives. |
| `DriftReport.FetchCallsEachOnce` | src/saltext/vmware/states/drift_report.py:25-30 | No collaborator is invoked twice; every invocation of a collaborator carries that collaborator's own configuration; when the fetch completes, all three were invoked, in order. |
| `DriftReport.JoinPrefixJoinedIff` | src/saltext/vmware/states/drift_report.py:32-33 | After visiting the first n firewall hosts, the comprehension is still running exactly when each of them is a key of the advanced result. |
| `DriftReport.JoinPrefixOrder` | src/saltext/vmware/states/drift_report.py:32-33 | While it runs, the dict being built lists exactly the firewall hosts visited so far, in the firewall result's iteration order. |
| `DriftReport.JoinPrefixEntries` | src/saltext/vmware/states/drift_report.py:32-33 | Every host in the dict being built is a key of both results and maps to its firewall value and its advanced value, unchanged. |
| `DriftReport.JoinPrefixMissing` | src/saltext/vmware/states/drift_report.py:33 | When the comprehension stops, it stops at a firewall host absent from the advanced result, and every host visited before it was present. |
| `DriftReport.JoinResults` | src/saltext/vmware/states/drift_report.py:32-33 | The join succeeds exactly when the firewall keys are a subset of the advanced keys; then its key set is exactly the firewall key set, in the firewall order, and each host maps to its firewall and advanced values unchanged; otherwise the failing host is a firewall host missing from the advanced result, and the first such host in iteration order. |
| `DriftReport.JoinDropsAdvancedOnlyHosts` | src/saltext/vmware/states/drift_report.py:32-33 | A host that only the advanced result has is not a key of the join. |
| `DriftReport.JoinOfEmptyFirewall` | src/saltext/vmware/states/drift_report.py:32-33 | An empty firewall result joins to the empty dict, whatever the advanced result holds. |
| `DriftReport.AssembleAsWritten` | src/saltext/vmware/states/drift_report.py:32-37 | After the fetch, the as-written assembly always raises: the TypeError of the set display exactly when every firewall host has an advanced entry, and a KeyError exactly when some firewall host has none; the KeyError names a firewall host the advanced result lacks, the first such host in iteration order. |
| `DriftReport.AssembleIntended` | src/saltext/vmware/states/drift_report.py:32-36 | The intended assembly returns an envelope exactly when every firewall host has an advanced entry; the envelope echoes the name, has result true and an empty comment, holds the join (firewall key set and order, both values unchanged) under esxi and the storage-policy result unchanged under storagePolicies; otherwise it raises KeyError for the first firewall host, in iteration order, that the advanced result lacks. |
| `DriftReport.Report` | src/saltext/vmware/states/drift_report.py:17-37 | As written, `report` makes the fetch's calls, passes a collaborator's exception on unchanged, and never returns a value. |
| `DriftReport.ReportIntended` | src/saltext/vmware/states/drift_report.py:17-36 | With the set display removed, `report` makes the same calls, passes a collaborator's exception on unchanged, and returns exactly when all three collaborators return and every firewall host has an advanced entry. |
| `DriftReport.ReportExceptionPrecedence` | src/saltext/vmware/states/drift_report.py:25-36 | Which exception the as-written `report` raises: the firewall collaborator's, else the advanced one's, else the storage-policy one's; once all three returned, a KeyError for a firewall host missing from the advanced result, else the TypeError of line 36. |
| `DriftReport.ReportDiffersOnlyBySetDisplay` | src/saltext/vmware/states/drift_report.py:35-37 | The as-written and the intended `report` make the same calls and raise the same exceptions; where the intended one returns, the as-written one raises the unhashable-dict TypeError. |
| `DriftReport.SetDisplayCounterexample` | src/saltext/vmware/states/drift_report.py:36 | With three collaborators that return empty results, the as-written `report` raises TypeError while the intended one returns an envelope. |
| `DriftReport.IntendedReportEnvelope` | src/saltext/vmware/states/drift_report.py:25-36 | When the intended `report` returns, its envelope echoes the name, has result true and an empty comment, holds under esxi exactly the hosts of what the firewall collaborator returned, in its order, each with its firewall and advanced values unchanged, and holds under storagePolicies exactly what the storage-policy collaborator returned. |
| `DriftReport.IntendedReportKeyError` | src/saltext/vmware/states/drift_report.py:25-33 | When all three collaborators return but some firewall host has no advanced entry, the intended `report` makes all three calls and raises KeyError for the first such host in the firewall result's iteration order, returning no envelope. |

## Left out

- The `__salt__` registry itself (lookup by string name, and the KeyError it would raise for an unregistered function), `__virtual__` and `__virtualname__` (lines 10-14), the unused imports of `connect`, `saltext.vmware.states.esxi` and `saltext.vmware.states.storage_policy` (lines 4-6) and the logger: loader plumbing with no behaviour of the function's own. The registry names appear only as the targets recorded in the invocation trace.
- The internals of `vmware_esxi.firewall_config`, `vmware_esxi.advanced_config` and `vsphere_storage_policy.storage_policy`: their code is not part of this model; each is a parameter that returns a value or raises.
- Keyword unpacking (`**config`): a configuration is opaque and passed through unchanged; the TypeError Python raises when a configuration is not a mapping of strings is not modelled.
- The contents of the firewall, advanced-configuration and storage-policy payloads, which the function never inspects.
- The fixed-key dicts of lines 32-33 (`firewall_config`, `advanced_config`) and 35-36 (`name`, `result`, `comment`, `changes`; `esxi`, `storagePolicies`) are records (`HostEntry`, `Envelope`, `Changes`): the model keeps their keys and values but not Python's insertion order of those keys.
- Python object identity, and host keys whose hashing or equality raises: keys are compared with Dafny's equality.
- The integration test suite for the virtual-machine execution module: it exercises a module that is not part of this model.

## Findings

| source | as written | input that shows it | evidently intended | confidence | as-written member | corrected member |
|---|---|---|---|---|---|---|
| src/saltext/vmware/states/drift_report.py:36 | `"esxi": {esxi_result}` builds a set whose only element is a dict; dicts are unhashable, so this raises `TypeError: unhashable type: 'dict'` and the `return` at line 37 is never reached | any run in which the three collaborators return and every firewall host has an advanced entry, e.g. all three return empty results | `"esxi": esxi_result`, the per-host join itself | high; not executed | `DriftReport.SetDisplayCounterexample` | `DriftReport.ReportIntended` |
