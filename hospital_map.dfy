/**
 * `HospitalMap` (src/components/HospitalMap.tsx): one geocoding query per
 * hospital address, and from their results either the loading text, the
 * empty text, or a map centred on the first marker. The geocoding itself is
 * not part of this model: the query cache is the parameter `cache`.
 */
module HospitalMap {
  import opened Wrappers

  /** The fields of `HospitalAddress` the map uses; `country` is always `null`. */
  datatype HospitalAddress = HospitalAddress(id: int, street: string, city: string, state: string, postalCode: string)

  datatype Coord = Coord(lat: real, lon: real)

  /** What `useQueries` reports for one query: still loading, and the data if any. */
  datatype GeocodeQuery = GeocodeQuery(isLoading: bool, data: Option<Coord>)

  /** The address part of `queryKey`; react-query shares one result per key. */
  datatype GeocodeKey = GeocodeKey(street: string, city: string, state: string, postalCode: string)

  function KeyOf(h: HospitalAddress): GeocodeKey {
    GeocodeKey(h.street, h.city, h.state, h.postalCode)
  }

  /** `useQueries({ queries: hospitals.map(...) })`: one query per hospital, in order. */
  function Queries(hospitals: seq<HospitalAddress>, cache: GeocodeKey -> GeocodeQuery): (qs: seq<GeocodeQuery>)
    ensures |qs| == |hospitals|
    ensures forall i :: 0 <= i < |hospitals| ==> qs[i] == cache(KeyOf(hospitals[i]))
  {
    seq(|hospitals|, i requires 0 <= i < |hospitals| => cache(KeyOf(hospitals[i])))
  }

  datatype Marker = Marker(name: string, hospital: HospitalAddress, lat: real, lon: real)

  datatype MapView = LoadingMap | NoLocations | MapAt(center: Coord, markers: seq<Marker>)

  /** `hospitalsNames[i] || ''`. */
  function NameAt(names: seq<string>, i: nat): string {
    if i < |names| then names[i] else ""
  }

  /** The element the `.map` produces for query `i`: a marker when the query has data. */
  function Candidate(qs: seq<GeocodeQuery>, hospitals: seq<HospitalAddress>, names: seq<string>, i: nat): Option<Marker>
    requires i < |qs| == |hospitals|
  {
    match qs[i].data
    case Some(c) => Some(Marker(NameAt(names, i), hospitals[i], c.lat, c.lon))
    case None => None
  }

  /** `.filter(Boolean)`: the markers of the candidates, in order. */
  function Present(cands: seq<Option<Marker>>): (ms: seq<Marker>)
    ensures |ms| <= |cands|
  {
    if cands == [] then []
    else (if cands[0].Some? then [cands[0].value] else []) + Present(cands[1..])
  }

  /** The `.map` over the queries, from query `from` on. */
  function CandidatesFrom(qs: seq<GeocodeQuery>, hospitals: seq<HospitalAddress>, names: seq<string>, from: nat): seq<Option<Marker>>
    requires from <= |qs| == |hospitals|
    decreases |qs| - from
  {
    if from == |qs| then [] else [Candidate(qs, hospitals, names, from)] + CandidatesFrom(qs, hospitals, names, from + 1)
  }

  function Markers(qs: seq<GeocodeQuery>, hospitals: seq<HospitalAddress>, names: seq<string>): seq<Marker>
    requires |qs| == |hospitals|
  {
    Present(CandidatesFrom(qs, hospitals, names, 0))
  }

  /** What the component renders. */
  function HospitalMap(hospitals: seq<HospitalAddress>, names: seq<string>, cache: GeocodeKey -> GeocodeQuery): MapView {
    var qs := Queries(hospitals, cache);
    if exists i :: 0 <= i < |qs| && qs[i].isLoading then LoadingMap
    else
      var ms := Markers(qs, hospitals, names);
      if |ms| == 0 then NoLocations else MapAt(Coord(ms[0].lat, ms[0].lon), ms)
  }

  /** The positions, in ascending order, of the queries from `from` on that have data. */
  function DataIndices(qs: seq<GeocodeQuery>, from: nat): (ix: seq<nat>)
    requires from <= |qs|
    ensures forall j :: 0 <= j < |ix| ==> from <= ix[j] < |qs| && qs[ix[j]].data.Some?
    ensures forall j, k :: 0 <= j < k < |ix| ==> ix[j] < ix[k]
    ensures forall i :: from <= i < |qs| && qs[i].data.Some? ==> i in ix
    decreases |qs| - from
  {
    if from == |qs| then []
    else if qs[from].data.Some? then [from] + DataIndices(qs, from + 1)
    else DataIndices(qs, from + 1)
  }

  function MarkerAt(qs: seq<GeocodeQuery>, hospitals: seq<HospitalAddress>, names: seq<string>, i: nat): Marker
    requires i < |qs| == |hospitals| && qs[i].data.Some?
  {
    Marker(NameAt(names, i), hospitals[i], qs[i].data.value.lat, qs[i].data.value.lon)
  }

  /** From query `from` on, the kept candidates are those of the queries with data, in order. */
  lemma {:induction false} MarkersFollowHospitals(qs: seq<GeocodeQuery>, hospitals: seq<HospitalAddress>, names: seq<string>, from: nat)
    requires |qs| == |hospitals| && from <= |qs|
    ensures |Present(CandidatesFrom(qs, hospitals, names, from))| == |DataIndices(qs, from)|
    ensures forall j :: 0 <= j < |DataIndices(qs, from)| ==>
      Present(CandidatesFrom(qs, hospitals, names, from))[j] == MarkerAt(qs, hospitals, names, DataIndices(qs, from)[j])
    decreases |qs| - from
  {
    if from < |qs| {
      MarkersFollowHospitals(qs, hospitals, names, from + 1);
      var cands := CandidatesFrom(qs, hospitals, names, from);
      var rest := Present(CandidatesFrom(qs, hospitals, names, from + 1));
      assert cands[0] == Candidate(qs, hospitals, names, from);
      assert cands[1..] == CandidatesFrom(qs, hospitals, names, from + 1);
      if qs[from].data.Some? {
        assert Present(cands) == [MarkerAt(qs, hospitals, names, from)] + rest;
        assert DataIndices(qs, from) == [from] + DataIndices(qs, from + 1);
      } else {
        assert Present(cands) == rest;
        assert DataIndices(qs, from) == DataIndices(qs, from + 1);
      }
    }
  }

  /**
   * The markers are exactly the hospitals whose query has data, in hospital
   * order, each with its own name and coordinates.
   */
  lemma {:induction false} MarkersAreDataIndices(qs: seq<GeocodeQuery>, hospitals: seq<HospitalAddress>, names: seq<string>)
    requires |qs| == |hospitals|
    ensures |Markers(qs, hospitals, names)| == |DataIndices(qs, 0)|
    ensures forall j :: 0 <= j < |DataIndices(qs, 0)| ==>
      Markers(qs, hospitals, names)[j] == MarkerAt(qs, hospitals, names, DataIndices(qs, 0)[j])
  {
    MarkersFollowHospitals(qs, hospitals, names, 0);
  }

  /** The first position with data has none before it. */
  lemma {:induction false} FirstDataIndex(qs: seq<GeocodeQuery>)
    requires DataIndices(qs, 0) != []
    ensures var i := DataIndices(qs, 0)[0];
      i < |qs| && qs[i].data.Some? && forall k :: 0 <= k < i ==> qs[k].data.None?
  {
    var ix := DataIndices(qs, 0);
    forall k | 0 <= k < ix[0]
      ensures qs[k].data.None?
    {
      assert k !in ix;
    }
  }

  /** No position with data: no query has data. */
  lemma {:induction false} NoDataIndices(qs: seq<GeocodeQuery>)
    requires DataIndices(qs, 0) == []
    ensures forall i :: 0 <= i < |qs| ==> qs[i].data.None?
  {
    forall i | 0 <= i < |qs|
      ensures qs[i].data.None?
    {
      assert i !in DataIndices(qs, 0);
    }
  }

  /**
   * What is shown: the loading text while any query loads; otherwise the empty
   * text when no query has data, and else a map centred on the first hospital
   * (in list order) whose query has data.
   */
  lemma {:induction false} ViewChoice(hospitals: seq<HospitalAddress>, names: seq<string>, cache: GeocodeKey -> GeocodeQuery)
    ensures var qs := Queries(hospitals, cache);
      var v := HospitalMap(hospitals, names, cache);
      && (v == LoadingMap <==> exists i :: 0 <= i < |qs| && qs[i].isLoading)
      && (v == NoLocations <==>
            (forall i :: 0 <= i < |qs| ==> !qs[i].isLoading) && (forall i :: 0 <= i < |qs| ==> qs[i].data.None?))
      && (v.MapAt? ==>
            exists i :: 0 <= i < |qs| && qs[i].data == Some(v.center) && (forall k :: 0 <= k < i ==> qs[k].data.None?))
  {
    var qs := Queries(hospitals, cache);
    MarkersAreDataIndices(qs, hospitals, names);
    if DataIndices(qs, 0) != [] {
      FirstDataIndex(qs);
    } else {
      NoDataIndices(qs);
    }
  }

  /** Two hospitals at the same address share one query, so one result. */
  lemma SameAddressSameResult(hospitals: seq<HospitalAddress>, cache: GeocodeKey -> GeocodeQuery, i: nat, j: nat)
    requires i < |hospitals| && j < |hospitals| && KeyOf(hospitals[i]) == KeyOf(hospitals[j])
    ensures Queries(hospitals, cache)[i] == Queries(hospitals, cache)[j]
  {
  }
}
