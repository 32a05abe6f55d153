/**
 * The page's module-level state and the event handlers that change it:
 * the logged-in user, the pending placement mode, the pending measurement
 * point and the three annotation lists, with the private list written
 * through to the browser's storage on every change.
 */
module Viewer {
  import opened Wrappers
  import opened Coords
  import opened Text
  import opened Session
  import opened Annotations

  /** What the next map click places, if anything (`placingMarker`). */
  datatype Placing = NotPlacing | MarkerMode | TownMode

  /** What a map click did. */
  datatype ClickResult =
    | TownPrompted(added: bool)                       // town mode: a label was added unless the name was cancelled
    | MarkerPrompted(outcome: Option<CreateOutcome>)  // marker mode: None when a prompt was cancelled
    | FirstPoint                                      // the first point of a measurement was recorded
    | Measured(m: Measurement)                        // the second point: the distance is reported

  class MapViewer {
    var currentUser: Option<User>
    var placing: Placing
    var measurePoints: seq<LatLng>
    var publicMarkers: seq<Marker>
    var privateMarkers: seq<Marker>
    var townLabels: seq<TownLabel>
    /** The copy of the private markers kept under the storage key "privateMarkers". */
    ghost var storedPrivate: seq<Marker>

    /**
     * Between events at most one measurement point is pending, the stored
     * copy equals the private list, and marker mode is only ever entered by
     * someone logged in (a login can replace the user but not remove it).
     */
    ghost predicate Valid()
      reads this
    {
      |measurePoints| <= 1
      && storedPrivate == privateMarkers
      && (placing == MarkerMode ==> currentUser.Some?)
    }

    function Lists(): Store
      reads this
    {
      Store(publicMarkers, privateMarkers, townLabels)
    }

    /** Page load: nobody logged in, no mode, no lists but the private markers read from storage. */
    constructor (stored: seq<Marker>)
      ensures Valid()
      ensures currentUser == None && placing == NotPlacing && measurePoints == []
      ensures publicMarkers == [] && townLabels == []
      ensures privateMarkers == stored && storedPrivate == stored
    {
      currentUser := None;
      placing := NotPlacing;
      measurePoints := [];
      publicMarkers := [];
      privateMarkers := stored;
      townLabels := [];
      storedPrivate := stored;
    }

    /**
     * createMarkerOnMap: checks the type, and for a new marker appends it to
     * the list the user's role selects, writing the private list through to
     * storage. Nothing else changes.
     */
    method CreateMarkerOnMap(latlng: LatLng, kind: string, name: string, isNew: bool) returns (outcome: CreateOutcome)
      requires Valid()
      modifies this
      ensures Valid()
      ensures outcome == CreateOutcomeOf(currentUser, kind, isNew)
      ensures Lists() == AfterCreate(old(Lists()), currentUser, Marker(latlng, kind, name), isNew)
      ensures currentUser == old(currentUser) && placing == old(placing) && measurePoints == old(measurePoints)
      ensures outcome != AddedPrivate ==> storedPrivate == old(storedPrivate)
    {
      if !IsValidType(kind) {
        return InvalidType;
      }
      if !isNew {
        return Drawn;
      }
      if currentUser.None? {
        // reading `currentUser.role` throws: the marker is drawn but never stored
        return NoSession;
      }
      var m := Marker(latlng, kind, name);
      if IsPrivileged(currentUser.value.role) {
        publicMarkers := publicMarkers + [m];
        outcome := AddedPublic;
      } else {
        privateMarkers := privateMarkers + [m];
        storedPrivate := privateMarkers;
        outcome := AddedPrivate;
      }
    }

    /**
     * The public markers arrive: on success the list becomes the fetched
     * one (replacing anything added before it arrived) and each is drawn; on
     * failure it stays as it was.
     */
    method LoadPublicMarkers(fetched: Option<seq<Marker>>)
      requires Valid()
      modifies this
      ensures Valid()
      ensures publicMarkers == if fetched.Some? then fetched.value else old(publicMarkers)
      ensures privateMarkers == old(privateMarkers) && townLabels == old(townLabels)
      ensures storedPrivate == old(storedPrivate)
      ensures currentUser == old(currentUser) && placing == old(placing) && measurePoints == old(measurePoints)
    {
      if fetched.Some? {
        publicMarkers := fetched.value;
        var i := 0;
        while i < |publicMarkers|
          invariant Valid()
          invariant 0 <= i <= |publicMarkers|
          invariant publicMarkers == fetched.value
          invariant privateMarkers == old(privateMarkers) && townLabels == old(townLabels)
          invariant storedPrivate == old(storedPrivate)
          invariant currentUser == old(currentUser) && placing == old(placing) && measurePoints == old(measurePoints)
        {
          var m := publicMarkers[i];
          var _ := CreateMarkerOnMap(m.latlng, m.kind, m.name, false);
          i := i + 1;
        }
      }
    }

    /** The private markers read at load time are drawn; no list changes. */
    method LoadPrivateMarkers()
      requires Valid()
      modifies this
      ensures Valid()
      ensures Lists() == old(Lists()) && storedPrivate == old(storedPrivate)
      ensures currentUser == old(currentUser) && placing == old(placing) && measurePoints == old(measurePoints)
    {
      var i := 0;
      while i < |privateMarkers|
        invariant Valid()
        invariant 0 <= i <= |privateMarkers|
        invariant Lists() == old(Lists()) && storedPrivate == old(storedPrivate)
        invariant currentUser == old(currentUser) && placing == old(placing) && measurePoints == old(measurePoints)
      {
        var m := privateMarkers[i];
        var _ := CreateMarkerOnMap(m.latlng, m.kind, m.name, false);
        i := i + 1;
      }
    }

    /** The town labels arrive: on success the list becomes the fetched one; on failure it stays. */
    method LoadTownLabels(fetched: Option<seq<TownLabel>>)
      requires Valid()
      modifies this
      ensures Valid()
      ensures townLabels == if fetched.Some? then fetched.value else old(townLabels)
      ensures publicMarkers == old(publicMarkers) && privateMarkers == old(privateMarkers)
      ensures storedPrivate == old(storedPrivate)
      ensures currentUser == old(currentUser) && placing == old(placing) && measurePoints == old(measurePoints)
    {
      if fetched.Some? {
        townLabels := fetched.value;
        var i := 0;
        while i < |townLabels|
          invariant Valid()
          invariant 0 <= i <= |townLabels|
          invariant townLabels == fetched.value
          invariant publicMarkers == old(publicMarkers) && privateMarkers == old(privateMarkers)
          invariant storedPrivate == old(storedPrivate)
          invariant currentUser == old(currentUser) && placing == old(placing) && measurePoints == old(measurePoints)
        {
          CreateTownLabel(townLabels[i].latlng, townLabels[i].name, false);
          i := i + 1;
        }
      }
    }

    /** createTownLabel: draws the label and, when it is new, appends it. */
    method CreateTownLabel(latlng: LatLng, name: string, isNew: bool)
      requires Valid()
      modifies this
      ensures Valid()
      ensures townLabels == if isNew then old(townLabels) + [TownLabel(latlng, name)] else old(townLabels)
      ensures publicMarkers == old(publicMarkers) && privateMarkers == old(privateMarkers)
      ensures storedPrivate == old(storedPrivate)
      ensures currentUser == old(currentUser) && placing == old(placing) && measurePoints == old(measurePoints)
    {
      if isNew {
        townLabels := townLabels + [TownLabel(latlng, name)];
      }
    }

    /** startMeasure: forgets any pending point; nothing else changes. */
    method StartMeasure()
      requires Valid()
      modifies this
      ensures Valid()
      ensures measurePoints == []
      ensures Lists() == old(Lists()) && storedPrivate == old(storedPrivate)
      ensures currentUser == old(currentUser) && placing == old(placing)
    {
      measurePoints := [];
    }

    /** startMarkerPlacement: enters marker mode iff someone is logged in; a refusal changes nothing. */
    method StartMarkerPlacement() returns (started: bool)
      requires Valid()
      modifies this
      ensures Valid()
      ensures started == CanPlaceMarker(currentUser)
      ensures placing == if started then MarkerMode else old(placing)
      ensures Lists() == old(Lists()) && storedPrivate == old(storedPrivate)
      ensures currentUser == old(currentUser) && measurePoints == old(measurePoints)
    {
      if currentUser.None? {
        return false;
      }
      placing := MarkerMode;
      started := true;
    }

    /** startTownPlacement: enters town mode iff an admin or a mod is logged in; a refusal changes nothing. */
    method StartTownPlacement() returns (started: bool)
      requires Valid()
      modifies this
      ensures Valid()
      ensures started == CanPlaceTown(currentUser)
      ensures placing == if started then TownMode else old(placing)
      ensures Lists() == old(Lists()) && storedPrivate == old(storedPrivate)
      ensures currentUser == old(currentUser) && measurePoints == old(measurePoints)
    {
      if currentUser.None? || (currentUser.value.role != Admin && currentUser.value.role != Mod) {
        return false;
      }
      placing := TownMode;
      started := true;
    }

    /**
     * promptMarkerDetails: an empty answer to either prompt cancels;
     * otherwise the marker is created with the type lower-cased.
     */
    method PromptMarkerDetails(latlng: LatLng, typeAnswer: string, nameAnswer: string) returns (outcome: Option<CreateOutcome>)
      requires Valid()
      modifies this
      ensures Valid()
      ensures outcome.None? <==> typeAnswer == "" || nameAnswer == ""
      ensures outcome.Some? ==> outcome.value == CreateOutcomeOf(currentUser, ToLower(typeAnswer), true)
      ensures Lists() == if outcome.None? then old(Lists())
        else AfterCreate(old(Lists()), currentUser, Marker(latlng, ToLower(typeAnswer), nameAnswer), true)
      ensures outcome != Some(AddedPrivate) ==> storedPrivate == old(storedPrivate)
      ensures currentUser == old(currentUser) && placing == old(placing) && measurePoints == old(measurePoints)
    {
      if typeAnswer == "" {
        return None;
      }
      if nameAnswer == "" {
        return None;
      }
      var o := CreateMarkerOnMap(latlng, ToLower(typeAnswer), nameAnswer, true);
      outcome := Some(o);
    }

    /**
     * handleMapClick. Town mode is served first, then marker mode: either
     * one is left on the click, the prompts are answered and the pending
     * measurement point is kept. With no mode, the click is the first or the
     * second point of a measurement; the second reports the offsets and
     * clears the points.
     */
    method HandleMapClick(latlng: LatLng, townName: string, markerType: string, markerName: string)
      returns (result: ClickResult)
      requires Valid()
      modifies this
      ensures Valid()
      ensures currentUser == old(currentUser)
      ensures old(placing) == TownMode ==>
        placing == NotPlacing && measurePoints == old(measurePoints)
        && result == TownPrompted(townName != "")
        && publicMarkers == old(publicMarkers) && privateMarkers == old(privateMarkers)
        && storedPrivate == old(storedPrivate)
        && townLabels == if townName != "" then old(townLabels) + [TownLabel(latlng, townName)] else old(townLabels)
      ensures old(placing) == MarkerMode ==>
        placing == NotPlacing && measurePoints == old(measurePoints)
        && result.MarkerPrompted?
        && (result.outcome.None? <==> markerType == "" || markerName == "")
        && result.outcome != Some(NoSession)
        && (result.outcome.Some? ==> result.outcome.value == CreateOutcomeOf(currentUser, ToLower(markerType), true))
        && Lists() == if result.outcome.None? then old(Lists())
          else AfterCreate(old(Lists()), currentUser, Marker(latlng, ToLower(markerType), markerName), true)
      ensures old(placing) == NotPlacing ==>
        placing == NotPlacing && Lists() == old(Lists()) && storedPrivate == old(storedPrivate)
      ensures old(placing) == NotPlacing && |old(measurePoints)| == 0 ==>
        measurePoints == [latlng] && result == FirstPoint
      ensures old(placing) == NotPlacing && |old(measurePoints)| == 1 ==>
        measurePoints == [] && result == Measured(Measure(old(measurePoints)[0], latlng))
    {
      if placing == TownMode {
        placing := NotPlacing;
        if townName != "" {
          CreateTownLabel(latlng, townName, true);
        }
        return TownPrompted(townName != "");
      }
      if placing == MarkerMode {
        placing := NotPlacing;
        var outcome := PromptMarkerDetails(latlng, markerType, markerName);
        return MarkerPrompted(outcome);
      }
      if |measurePoints| == 1 {
        measurePoints := measurePoints + [latlng];
        var a := measurePoints[0];
        var b := measurePoints[1];
        var m := Measure(a, b);
        measurePoints := [];
        result := Measured(m);
      } else {
        measurePoints := measurePoints + [latlng];
        result := FirstPoint;
      }
    }

    /** exportTownLabels: offers the town labels for download iff an admin is logged in. */
    method ExportTownLabels() returns (exported: Option<seq<TownLabel>>)
      ensures exported.Some? <==> CanExport(currentUser)
      ensures exported.Some? ==> exported.value == townLabels
    {
      if currentUser.None? || currentUser.value.role != Admin {
        return None;
      }
      exported := Some(townLabels);
    }

    /** exportPublicMarkers: offers the public markers for download iff an admin is logged in. */
    method ExportPublicMarkers() returns (exported: Option<seq<Marker>>)
      ensures exported.Some? <==> CanExport(currentUser)
      ensures exported.Some? ==> exported.value == publicMarkers
    {
      if currentUser.None? || currentUser.value.role != Admin {
        return None;
      }
      exported := Some(publicMarkers);
    }

    /** login: never fails; the user becomes what the credential table resolves the pair to. */
    method Login(u: string, p: string)
      requires Valid()
      modifies this
      ensures Valid()
      ensures currentUser == Some(Resolve(u, p))
      ensures Lists() == old(Lists()) && storedPrivate == old(storedPrivate)
      ensures placing == old(placing) && measurePoints == old(measurePoints)
    {
      var found := FindFrom(Users, u, p, 0);
      if found.Some? {
        currentUser := Some(User(Users[found.value].username, Users[found.value].role));
      } else {
        currentUser := Some(User(u, Player));
      }
    }

    /**
     * deleteMarker: removes from both marker lists every marker at the
     * position, whatever its name, keeps the rest in order and rewrites the
     * stored private copy. The name is not consulted.
     */
    method DeleteMarker(name: string, lat: real, lng: real)
      requires Valid()
      modifies this
      ensures Valid()
      ensures publicMarkers == RemoveAt(old(publicMarkers), LatLng(lat, lng))
      ensures privateMarkers == RemoveAt(old(privateMarkers), LatLng(lat, lng))
      ensures storedPrivate == privateMarkers
      ensures townLabels == old(townLabels)
      ensures currentUser == old(currentUser) && placing == old(placing) && measurePoints == old(measurePoints)
    {
      publicMarkers := RemoveAt(publicMarkers, LatLng(lat, lng));
      privateMarkers := RemoveAt(privateMarkers, LatLng(lat, lng));
      storedPrivate := privateMarkers;
    }

    /**
     * editMarker as written: an empty answer cancels; otherwise every
     * marker at the position is deleted and then the new one is created,
     * so a refused type or a missing login leaves the position empty.
     */
    method EditMarker(name: string, kind: string, lat: real, lng: real, newName: string, newType: string)
      returns (outcome: Option<CreateOutcome>)
      requires Valid()
      modifies this
      ensures Valid()
      ensures outcome.None? <==> newName == "" || newType == ""
      ensures outcome.Some? ==> outcome.value == CreateOutcomeOf(currentUser, ToLower(newType), true)
      ensures Lists() == EditAsWritten(old(Lists()), currentUser, lat, lng, newName, newType)
      ensures currentUser == old(currentUser) && placing == old(placing) && measurePoints == old(measurePoints)
    {
      if newName == "" {
        return None;
      }
      if newType == "" {
        return None;
      }
      DeleteMarker(name, lat, lng);
      var o := CreateMarkerOnMap(LatLng(lat, lng), ToLower(newType), newName, true);
      outcome := Some(o);
    }
  }
}
