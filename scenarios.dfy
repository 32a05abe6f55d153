/**
 * Clients of the viewer that follow whole interactions through the
 * contracts alone: an admin placing and exporting a town, a player placing
 * a private marker, and a two-click measurement.
 */
module Scenarios {
  import opened Wrappers
  import opened Coords
  import opened Session
  import opened Annotations
  import opened Viewer

  /** The admin logs in, places "Millhaven" at pixel (1472, 1472) and exports the towns. */
  method AdminPlacesTown() returns (exported: Option<seq<TownLabel>>)
    ensures exported == Some([TownLabel(LatLng(1472.0, 1472.0), "Millhaven")])
  {
    var v := new MapViewer([]);
    v.Login("Kingosp4de", "BlaiseKey2026");
    ResolveRoles("Kingosp4de", "BlaiseKey2026");
    var started := v.StartTownPlacement();
    assert started;
    var _ := v.HandleMapClick(LatLng(1472.0, 1472.0), "Millhaven", "", "");
    assert v.townLabels == [TownLabel(LatLng(1472.0, 1472.0), "Millhaven")];
    assert CanExport(v.currentUser);
    exported := v.ExportTownLabels();
  }

  /** A player places a "House" called "Cabin": it lands in the private list and in storage only. */
  method PlayerPlacesCabin() returns (result: ClickResult, publicList: seq<Marker>, privateList: seq<Marker>, ghost stored: seq<Marker>)
    ensures result == MarkerPrompted(Some(AddedPrivate))
    ensures publicList == []
    ensures privateList == [Marker(LatLng(1000.0, 1000.0), "house", "Cabin")]
    ensures stored == privateList
  {
    var v := new MapViewer([]);
    v.Login("visitor", "");
    ResolveRoles("visitor", "");
    var _ := v.StartMarkerPlacement();
    assert Text.ToLower("House") == "house";
    result := v.HandleMapClick(LatLng(1000.0, 1000.0), "", "House", "Cabin");
    publicList, privateList := v.publicMarkers, v.privateMarkers;
    stored := v.storedPrivate;
  }

  /** Two clicks 32 pixels apart along a row measure 32 blocks east and none south. */
  method MeasureAlongRow() returns (m: Measurement)
    ensures m == Measurement(32, 0, 1024)
  {
    var v := new MapViewer([]);
    var first := v.HandleMapClick(LatLng(1472.0, 1472.0), "", "", "");
    var second := v.HandleMapClick(LatLng(1472.0, 1504.0), "", "", "");
    m := second.m;
  }
}
