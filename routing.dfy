/** Availability-first routing (src/routing.rs): walk the preferred providers in order,
    set aside those the host snapshot marks unavailable or incompatible, each with a reason,
    and select the first of the rest, keeping the others as fallbacks in order. */
module Routing {
  import opened Wrappers
  import opened Types
  import opened Canonical

  datatype RoutingDecision = RoutingDecision(
    selectedProvider: Option<ProviderId>,
    fallbackCandidates: seq<ProviderId>,
    providerReasons: map<ProviderId, ProviderReason>)

  /** Why the host snapshot rules provider `p` out, or `None` when `p` is usable. A provider
      that is unavailable is reported as such even when it is also incompatible; a provider
      the snapshot does not mention is usable. */
  function Verdict(selection: ProviderSelection, p: ProviderId): (r: Option<ProviderReason>)
  {
    if p in selection.availability && !selection.availability[p].available then
      var status := selection.availability[p];
      Some(ProviderReason(Unavailable, HostMarkedUnavailable, true,
        HostSnapshotDown(status.reason, status.lastSeenHealthyAt)))
    else if p in selection.availability && selection.availability[p].compatible == Some(false) then
      Some(ProviderReason(Incompatible, UnsupportedParam, false,
        HostSnapshotIncompatible(selection.availability[p].reason)))
    else None
  }

  predicate Usable(selection: ProviderSelection, p: ProviderId)
  {
    Verdict(selection, p).None?
  }

  /** The usable providers among `ps`, in order, repetitions kept. */
  function UsableList(selection: ProviderSelection, ps: seq<ProviderId>): seq<ProviderId>
  {
    if ps == [] then []
    else
      var p := ps[|ps| - 1];
      UsableList(selection, ps[..|ps| - 1]) + (if Usable(selection, p) then [p] else [])
  }

  /** The reasons recorded for the providers among `ps`; a later insertion for the same
      provider replaces an earlier one. */
  function ReasonsFor(selection: ProviderSelection, ps: seq<ProviderId>): map<ProviderId, ProviderReason>
  {
    if ps == [] then map[]
    else
      var p := ps[|ps| - 1];
      var earlier := ReasonsFor(selection, ps[..|ps| - 1]);
      match Verdict(selection, p)
      case None => earlier
      case Some(reason) => earlier[p := reason]
  }

  /** What `route_availability_first` returns. */
  function Route(selection: ProviderSelection): RoutingDecision
  {
    var usable := UsableList(selection, selection.preferred);
    RoutingDecision(
      if usable == [] then None else Some(usable[0]),
      if |usable| > 1 then usable[1..] else [],
      ReasonsFor(selection, selection.preferred))
  }

  lemma RouteStep(selection: ProviderSelection, ps: seq<ProviderId>, i: nat)
    requires i < |ps|
    ensures UsableList(selection, ps[..i + 1]) ==
      UsableList(selection, ps[..i]) + (if Usable(selection, ps[i]) then [ps[i]] else [])
    ensures ReasonsFor(selection, ps[..i + 1]) ==
      match Verdict(selection, ps[i])
      case None => ReasonsFor(selection, ps[..i])
      case Some(reason) => ReasonsFor(selection, ps[..i])[ps[i] := reason]
  {
    assert ps[..i + 1][..i] == ps[..i];
  }

  /** `route_availability_first`: one pass over the preferred providers, recording a reason
      for each ruled-out provider and pushing the others onto the usable list. */
  method RouteAvailabilityFirst(selection: ProviderSelection) returns (d: RoutingDecision)
    ensures d == Route(selection)
  {
    var usable: seq<ProviderId> := [];
    var reasons: map<ProviderId, ProviderReason> := map[];
    var preferred := selection.preferred;
    for i := 0 to |preferred|
      invariant usable == UsableList(selection, preferred[..i])
      invariant reasons == ReasonsFor(selection, preferred[..i])
    {
      var provider := preferred[i];
      RouteStep(selection, preferred, i);
      if provider in selection.availability && !selection.availability[provider].available {
        var status := selection.availability[provider];
        reasons := reasons[provider := ProviderReason(Unavailable, HostMarkedUnavailable, true,
          HostSnapshotDown(status.reason, status.lastSeenHealthyAt))];
      } else if provider in selection.availability && selection.availability[provider].compatible == Some(false) {
        var status := selection.availability[provider];
        reasons := reasons[provider := ProviderReason(Incompatible, UnsupportedParam, false,
          HostSnapshotIncompatible(status.reason))];
      } else {
        usable := usable + [provider];
      }
    }
    assert preferred[..|preferred|] == preferred;
    var selected := if |usable| > 0 then Some(usable[0]) else None;
    var fallbacks := if |usable| > 1 then usable[1..] else [];
    d := RoutingDecision(selected, fallbacks, reasons);
  }

  // ---------------------------------------------------------------------------------------
  // Properties

  /** A provider is on the usable list exactly when it is preferred and the snapshot does
      not rule it out. */
  lemma {:induction false} UsableListIff(selection: ProviderSelection, ps: seq<ProviderId>)
    ensures forall p :: p in UsableList(selection, ps) <==> p in ps && Usable(selection, p)
  {
    if ps != [] {
      var n := |ps| - 1;
      UsableListIff(selection, ps[..n]);
      assert ps == ps[..n] + [ps[n]];
    }
  }

  /** A provider has a reason exactly when it is preferred and ruled out, and the reason is
      the one its snapshot entry calls for. */
  lemma {:induction false} ReasonsForIff(selection: ProviderSelection, ps: seq<ProviderId>)
    ensures forall p :: p in ReasonsFor(selection, ps) <==> p in ps && !Usable(selection, p)
    ensures forall p :: p in ReasonsFor(selection, ps) ==> Verdict(selection, p) == Some(ReasonsFor(selection, ps)[p])
  {
    if ps != [] {
      var n := |ps| - 1;
      ReasonsForIff(selection, ps[..n]);
      assert ps == ps[..n] + [ps[n]];
    }
  }

  /** Every preferred provider is either usable or has a reason, never both; the reasons name
      only preferred providers. */
  lemma PreferredPartitioned(selection: ProviderSelection)
    ensures var d := Route(selection);
      forall p :: p in selection.preferred ==>
        (p in d.providerReasons <==> p !in UsableList(selection, selection.preferred))
    ensures Route(selection).providerReasons.Keys <= set p | p in selection.preferred
  {
    UsableListIff(selection, selection.preferred);
    ReasonsForIff(selection, selection.preferred);
  }

  /** The recorded reasons: an unavailable host is `unavailable/host_marked_unavailable` and
      retryable, whatever its compatibility; an available but incompatible host is
      `incompatible/unsupported_param` and not retryable. */
  lemma ReasonValues(selection: ProviderSelection)
    ensures var reasons := Route(selection).providerReasons;
      forall p :: p in reasons ==>
        p in selection.availability &&
        var status := selection.availability[p];
        && (reasons[p].reasonClass == Unavailable <==> !status.available)
        && (reasons[p].reasonClass == Unavailable ==>
              reasons[p] == ProviderReason(Unavailable, HostMarkedUnavailable, true,
                HostSnapshotDown(status.reason, status.lastSeenHealthyAt)))
        && (reasons[p].reasonClass != Unavailable ==>
              status.compatible == Some(false) &&
              reasons[p] == ProviderReason(Incompatible, UnsupportedParam, false, HostSnapshotIncompatible(status.reason)))
        && (reasons[p].retryable <==> reasons[p].reasonClass == Unavailable)
  {
    ReasonsForIff(selection, selection.preferred);
  }

  /** The head of the usable list is the first usable provider in preference order; the list
      is empty exactly when no preferred provider is usable. */
  lemma {:induction false} FirstUsable(selection: ProviderSelection, ps: seq<ProviderId>)
    ensures UsableList(selection, ps) == [] <==> forall j :: 0 <= j < |ps| ==> !Usable(selection, ps[j])
    ensures UsableList(selection, ps) != [] ==>
      exists i :: 0 <= i < |ps| && ps[i] == UsableList(selection, ps)[0] && Usable(selection, ps[i]) &&
        forall j :: 0 <= j < i ==> !Usable(selection, ps[j])
  {
    if ps != [] {
      var n := |ps| - 1;
      var init := ps[..n];
      FirstUsable(selection, init);
      if UsableList(selection, init) != [] {
        var i :| 0 <= i < |init| && init[i] == UsableList(selection, init)[0] && Usable(selection, init[i]) &&
          forall j :: 0 <= j < i ==> !Usable(selection, init[j]);
        assert ps[i] == init[i];
        assert forall j :: 0 <= j < i ==> ps[j] == init[j];
      } else {
        assert forall j :: 0 <= j < n ==> ps[j] == init[j];
        if Usable(selection, ps[n]) {
          assert UsableList(selection, ps)[0] == ps[n];
        }
      }
    }
  }

  /** The selected provider is the first usable preferred provider, or none when no
      preferred provider is usable. */
  lemma SelectedIsFirstUsable(selection: ProviderSelection)
    ensures var d := Route(selection);
      var pref := selection.preferred;
      && (d.selectedProvider.None? <==> forall j :: 0 <= j < |pref| ==> !Usable(selection, pref[j]))
      && (d.selectedProvider.Some? ==>
            exists i :: 0 <= i < |pref| && pref[i] == d.selectedProvider.value && Usable(selection, pref[i]) &&
              forall j :: 0 <= j < i ==> !Usable(selection, pref[j]))
  {
    FirstUsable(selection, selection.preferred);
  }

  /** The candidates the engine tries: the selected provider then the fallbacks, or none
      when nothing was selected. */
  function Candidates(d: RoutingDecision): seq<ProviderId>
  {
    match d.selectedProvider
    case None => []
    case Some(p) => [p] + d.fallbackCandidates
  }

  /** The selected provider followed by the fallbacks is the whole usable list, in order: no
      usable provider is lost and none is added; with no selection there are no fallbacks. */
  lemma CandidatesAreUsable(selection: ProviderSelection)
    ensures Candidates(Route(selection)) == UsableList(selection, selection.preferred)
    ensures Route(selection).selectedProvider.None? ==> Route(selection).fallbackCandidates == []
    ensures forall p :: p in Candidates(Route(selection)) <==> p in selection.preferred && Usable(selection, p)
  {
    var usable := UsableList(selection, selection.preferred);
    UsableListIff(selection, selection.preferred);
    if |usable| == 1 {
      assert usable == [usable[0]];
    }
  }

  /** `idx` picks `sub` out of `ps` at strictly increasing positions. */
  ghost predicate PicksOut(idx: seq<nat>, sub: seq<ProviderId>, ps: seq<ProviderId>)
  {
    && |idx| == |sub|
    && (forall k :: 0 <= k < |idx| ==> idx[k] < |ps| && ps[idx[k]] == sub[k])
    && (forall k, l :: 0 <= k < l < |idx| ==> idx[k] < idx[l])
  }

  /** The positions in `ps` of its usable providers. */
  ghost function UsablePositions(selection: ProviderSelection, ps: seq<ProviderId>): seq<nat>
  {
    if ps == [] then []
    else
      var n := |ps| - 1;
      UsablePositions(selection, ps[..n]) + (if Usable(selection, ps[n]) then [n] else [])
  }

  lemma {:induction false} UsablePositionsPickOut(selection: ProviderSelection, ps: seq<ProviderId>)
    ensures PicksOut(UsablePositions(selection, ps), UsableList(selection, ps), ps)
  {
    if ps != [] {
      var n := |ps| - 1;
      UsablePositionsPickOut(selection, ps[..n]);
    }
  }

  /** The selected provider followed by the fallbacks is a subsequence of `preferred`. */
  lemma CandidatesSubsequence(selection: ProviderSelection)
    ensures exists idx :: PicksOut(idx, Candidates(Route(selection)), selection.preferred)
  {
    CandidatesAreUsable(selection);
    UsablePositionsPickOut(selection, selection.preferred);
    assert PicksOut(UsablePositions(selection, selection.preferred), Candidates(Route(selection)), selection.preferred);
  }

  // ---------------------------------------------------------------------------------------
  // The unit tests of src/routing.rs as lemmas

  const Down: ProviderAvailability := ProviderAvailability(false, None, Some("down"), None)

  /** With no snapshot the first preferred provider is selected, the rest fall back. */
  lemma SelectsFirstUsable()
    ensures var d := Route(ProviderSelection([OpenAi, Gemini], map[]));
      d.selectedProvider == Some(OpenAi) && d.fallbackCandidates == [Gemini]
  {
    var s := ProviderSelection([OpenAi, Gemini], map[]);
    assert [OpenAi, Gemini][..1] == [OpenAi];
    assert UsableList(s, [OpenAi, Gemini]) == [OpenAi, Gemini];
  }

  /** An unavailable first choice is skipped and recorded. */
  lemma SkipsUnavailable()
    ensures var d := Route(ProviderSelection([OpenAi, Gemini],
      map[OpenAi := ProviderAvailability(false, None, Some("healthcheck down"), None)]));
      && d.selectedProvider == Some(Gemini) && d.fallbackCandidates == []
      && OpenAi in d.providerReasons
  {
    var s := ProviderSelection([OpenAi, Gemini],
      map[OpenAi := ProviderAvailability(false, None, Some("healthcheck down"), None)]);
    assert [OpenAi, Gemini][..1] == [OpenAi];
    assert UsableList(s, [OpenAi, Gemini]) == [Gemini];
  }

  /** An available but incompatible first choice is skipped and recorded. */
  lemma SkipsIncompatible()
    ensures var d := Route(ProviderSelection([OpenAi, Gemini],
      map[OpenAi := ProviderAvailability(true, Some(false), Some("missing feature"), None)]));
      d.selectedProvider == Some(Gemini) && OpenAi in d.providerReasons
  {
    var s := ProviderSelection([OpenAi, Gemini],
      map[OpenAi := ProviderAvailability(true, Some(false), Some("missing feature"), None)]);
    assert [OpenAi, Gemini][..1] == [OpenAi];
    assert UsableList(s, [OpenAi, Gemini]) == [Gemini];
  }

  /** When every preferred provider is down nothing is selected and nothing falls back. */
  lemma FullExhaustion()
    ensures var d := Route(ProviderSelection([OpenAi, Gemini], map[OpenAi := Down, Gemini := Down]));
      d.selectedProvider == None && d.fallbackCandidates == []
  {
    var s := ProviderSelection([OpenAi, Gemini], map[OpenAi := Down, Gemini := Down]);
    assert [OpenAi, Gemini][..1] == [OpenAi];
    assert UsableList(s, [OpenAi]) == [] by {
      assert [OpenAi][..0] == [];
    }
    assert UsableList(s, [OpenAi, Gemini]) == [];
  }
}
