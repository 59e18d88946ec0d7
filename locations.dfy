/** The coordinates of the health-care districts (`LOCATION_MAPPER`) and the
    lookup the dashboard does with `LOCATION_MAPPER.get(p, (None, None))`.
    Coordinates are opaque reals: nothing computes with them. */
module Locations {

  datatype Option<T> = None | Some(value: T)

  type Coordinates = (real, real)

  /** `LOCATION_MAPPER.get(p, (None, None))`: the district's latitude and
      longitude, or (None, None) for a name the map does not hold. */
  function Lookup(mapper: map<string, Coordinates>, p: string): (r: (Option<real>, Option<real>))
    ensures p in mapper ==> r == (Some(mapper[p].0), Some(mapper[p].1))
    ensures p !in mapper ==> r == (None, None)
    ensures r.0.Some? <==> r.1.Some?
  {
    if p in mapper then (Some(mapper[p].0), Some(mapper[p].1)) else (None, None)
  }

  // ---------------------------------------------------------------------------
  // The map written out as a literal.

  const AppMapper: map<string, Coordinates> := map[
    "Itä-Savo" := (61.868351, 28.886259),
    "HUS" := (60.169857, 24.938379),
    "Pirkanmaa" := (61.499003, 23.75972),
    "Etelä-Karjala" := (61.058449, 28.186991),
    "Kymenlaakso" := (60.4776188, 26.9122204),
    "Päijät-Häme" := (60.982104, 25.6317823),
    "Pohjois-Savo" := (62.9967201, 27.1134536),
    "Etelä-Savo" := (61.688925, 27.2441327),
    "Keski-Suomi" := (62.1332752, 25.9983345),
    "Pohjois-Karjala" := (62.6478798, 29.7932692),
    "Pohjois-Pohjanmaa" := (65.0097291, 25.5145513),
    "Kainuu" := (64.2151151, 27.6334433),
    "Keski-Pohjanmaa" := (63.8438269, 23.0999967),
    "Lappi" := (66.6659629, 24.9109831),
    "Länsi-Pohja" := (65.7556343, 24.52454),
    "Etelä-Pohjanmaa" := (62.7985647, 22.7538696),
    "Kanta-Häme" := (60.9947862, 24.3781338),
    "Varsinais-Suomi" := (60.431959, 22.0841279),
    "Satakunta" := (61.4799843, 21.7589953),
    "Vaasa" := (63.0689039, 22.0)
  ]

  // ---------------------------------------------------------------------------
  // The map built from three parallel lists.

  const Names: seq<string> := [
    "Itä-Savo", "HUS", "Pirkanmaa", "Etelä-Karjala", "Kymenlaakso",
    "Päijät-Häme", "Pohjois-Savo", "Etelä-Savo", "Keski-Suomi", "Pohjois-Karjala",
    "Pohjois-Pohjanmaa", "Kainuu", "Keski-Pohjanmaa", "Lappi", "Länsi-Pohja",
    "Etelä-Pohjanmaa", "Kanta-Häme", "Varsinais-Suomi", "Satakunta", "Vaasa"
  ]

  const Lats: seq<real> := [
    61.868351, 60.169857, 61.499003, 61.058449, 60.8366623,
    60.982104, 62.9967201, 61.688925, 62.1332752, 62.6478798,
    65.2032821, 64.2151151, 63.8438269, 66.6659629, 65.8803706,
    62.7985647, 60.9947862, 60.7553591, 61.4799843, 63.0689039
  ]

  const Lons: seq<real> := [
    28.886259, 24.938379, 23.759720, 28.186991, 26.5435711,
    25.6317823, 27.1134536, 27.2441327, 25.9983345, 29.7932692,
    25.8824512, 27.6334433, 23.0999967, 24.9109831, 25.0380235,
    22.7538696, 24.3781338, 22.2292106, 21.7589953, 22.0
  ]

  function Min3(a: nat, b: nat, c: nat): nat
  {
    if a <= b && a <= c then a else if b <= c then b else c
  }

  /** `{k: (x, y) for k, x, y in zip(ks, xs, ys)}`: `zip` stops at the shortest
      list, and a name given twice keeps the pair given last. */
  function ZipMapper(ks: seq<string>, xs: seq<real>, ys: seq<real>): (m: map<string, Coordinates>)
    ensures forall k :: k in m <==> exists i :: 0 <= i < Min3(|ks|, |xs|, |ys|) && ks[i] == k
    decreases |ks|
  {
    var n := Min3(|ks|, |xs|, |ys|);
    if n == 0 then map[]
    else
      var m := ZipMapper(ks[..n - 1], xs[..n - 1], ys[..n - 1]);
      assert Min3(n - 1, n - 1, n - 1) == n - 1;
      assert forall i :: 0 <= i < n - 1 ==> ks[..n - 1][i] == ks[i];
      m[ks[n - 1] := (xs[n - 1], ys[n - 1])]
  }

  /** The pair a name maps to is the one at its last position among the zipped triples. */
  lemma {:induction false} ZipMapperLast(ks: seq<string>, xs: seq<real>, ys: seq<real>, i: nat)
    requires i < Min3(|ks|, |xs|, |ys|)
    requires forall j :: i < j < Min3(|ks|, |xs|, |ys|) ==> ks[j] != ks[i]
    ensures ZipMapper(ks, xs, ys)[ks[i]] == (xs[i], ys[i])
    decreases |ks|
  {
    var n := Min3(|ks|, |xs|, |ys|);
    if i < n - 1 {
      var ks', xs', ys' := ks[..n - 1], xs[..n - 1], ys[..n - 1];
      assert Min3(|ks'|, |xs'|, |ys'|) == n - 1;
      assert ks'[i] == ks[i] && xs'[i] == xs[i] && ys'[i] == ys[i];
      forall j | i < j < n - 1 ensures ks'[j] != ks'[i] {
        assert ks'[j] == ks[j];
      }
      ZipMapperLast(ks', xs', ys', i);
      assert ks[n - 1] != ks[i];
    }
  }

  /** With no name twice, the i-th name maps to the i-th latitude and longitude. */
  lemma ZipMapperAt(ks: seq<string>, xs: seq<real>, ys: seq<real>, i: nat)
    requires forall j, k :: 0 <= j < k < |ks| ==> ks[j] != ks[k]
    requires i < Min3(|ks|, |xs|, |ys|)
    ensures ZipMapper(ks, xs, ys)[ks[i]] == (xs[i], ys[i])
  {
    ZipMapperLast(ks, xs, ys, i);
  }

  /** The lists give every district once. */
  lemma NamesDistinct()
    ensures |Names| == |Lats| == |Lons| == 20
    ensures forall j, k :: 0 <= j < k < |Names| ==> Names[j] != Names[k]
  {
  }

  const WsgiMapper: map<string, Coordinates> := ZipMapper(Names, Lats, Lons)

  /** Each district of the lists maps to its own latitude and longitude. */
  lemma WsgiMapperAt(i: nat)
    requires i < |Names|
    ensures Names[i] in WsgiMapper && WsgiMapper[Names[i]] == (Lats[i], Lons[i])
  {
    NamesDistinct();
    ZipMapperAt(Names, Lats, Lons, i);
  }

  /** Every district of the literal map is one of the listed names. */
  lemma AppKeysListed(p: string)
    requires p in AppMapper
    ensures p in Names
  {
  }

  /** The districts whose coordinates the two maps give differently. */
  const Moved: set<string> := {"Kymenlaakso", "Pohjois-Pohjanmaa", "Länsi-Pohja", "Varsinais-Suomi"}

  /** The literal map holds each listed district, with the listed
      coordinates except for the moved districts. */
  lemma AppMapperAt(i: nat)
    requires i < |Names|
    ensures Names[i] in AppMapper
    ensures AppMapper[Names[i]] != (Lats[i], Lons[i]) <==> Names[i] in Moved
  {
  }

  /** Both maps know the same twenty districts; they give the same coordinates
      to all but four of them. */
  lemma MappersCompared()
    ensures WsgiMapper.Keys == AppMapper.Keys
    ensures forall p :: p in AppMapper ==> (AppMapper[p] != WsgiMapper[p] <==> p in Moved)
  {
    forall p | p in AppMapper
      ensures p in WsgiMapper && (AppMapper[p] != WsgiMapper[p] <==> p in Moved)
    {
      AppKeysListed(p);
      var i :| 0 <= i < |Names| && Names[i] == p;
      WsgiMapperAt(i);
      AppMapperAt(i);
    }
    forall p | p in WsgiMapper ensures p in AppMapper {
      var i :| 0 <= i < |Names| && Names[i] == p;
      AppMapperAt(i);
    }
  }

  /** What the dashboard's lookup gives for a district name: under the list-built
      map, the listed coordinates of a listed district; under the literal map, the
      same except for the moved districts; and (None, None) under either map for a
      name that is not listed. */
  lemma LookupOfMappers(p: string)
    ensures forall i :: 0 <= i < |Names| && Names[i] == p ==> Lookup(WsgiMapper, p) == (Some(Lats[i]), Some(Lons[i]))
    ensures p in Names && p !in Moved ==> Lookup(AppMapper, p) == Lookup(WsgiMapper, p)
    ensures p in Names && p in Moved ==> Lookup(AppMapper, p).0.Some? && Lookup(AppMapper, p) != Lookup(WsgiMapper, p)
    ensures p !in Names ==> Lookup(WsgiMapper, p) == (None, None) && Lookup(AppMapper, p) == (None, None)
  {
    forall i | 0 <= i < |Names| && Names[i] == p
      ensures Lookup(WsgiMapper, p) == (Some(Lats[i]), Some(Lons[i]))
    {
      WsgiMapperAt(i);
    }
    if p in Names {
      MappersCompared();
      var i :| 0 <= i < |Names| && Names[i] == p;
      AppMapperAt(i);
      WsgiMapperAt(i);
    } else {
      if p in AppMapper {
        AppKeysListed(p);
      }
      assert p !in WsgiMapper;
    }
  }
}
