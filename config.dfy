/** `config_file`: the geometry a configuration names, either as country and continent
    names looked up in a shapefile or as coordinate lists that rebuild a polygon, and the
    way a polygon is written back into coordinate lists. The shapefile is an in-memory
    sequence of named entries; shapes are plain rings of coordinates. */
module Config {
  import opened Outcomes
  import opened Text

  // ---------------------------------------------------------------- shapes

  type Coord = (real, real)

  /** A polygon: its exterior ring and its interior rings (holes). */
  datatype Polygon = Polygon(shell: seq<Coord>, holes: seq<seq<Coord>>)

  /** The two shapes the configuration produces or reads back. */
  datatype Geometry = PolygonShape(polygon: Polygon) | MultiPolygonShape(parts: seq<Polygon>)

  /** One row of the shapefile, indexed by its country or continent name. */
  datatype ShapeEntry = ShapeEntry(name: string, geometry: Geometry)

  // ---------------------------------------------------------------- country_search

  /** `country_shapefile[country_shapefile.index == name]`, in shapefile order. */
  function Matching(shapes: seq<ShapeEntry>, name: string): (found: seq<ShapeEntry>)
    ensures forall e :: e in found <==> e in shapes && e.name == name
    decreases |shapes|
  {
    if shapes == [] then []
    else
      var init, last := shapes[..|shapes| - 1], shapes[|shapes| - 1];
      assert shapes == init + [last];
      Matching(init, name) + (if last.name == name then [last] else [])
  }

  /** `country_search`: the geometry of the one entry of that name; no entry or several is
      an error that reports how many were found. */
  function CountrySearch(shapes: seq<ShapeEntry>, name: string): Result<Geometry>
  {
    var found := Matching(shapes, name);
    if |found| == 1 then Ok(found[0].geometry) else Err(ResolutionError(name, |found|))
  }

  /** Exactly one entry of the shapefile carries `name`, at index `i`. */
  predicate UniqueAt(shapes: seq<ShapeEntry>, name: string, i: int)
  {
    0 <= i < |shapes| && shapes[i].name == name
    && forall j :: 0 <= j < |shapes| && shapes[j].name == name ==> j == i
  }

  /** A last entry of another name changes nothing. */
  lemma MatchingOther(init: seq<ShapeEntry>, last: ShapeEntry, name: string)
    requires last.name != name
    ensures Matching(init + [last], name) == Matching(init, name)
    ensures forall i :: UniqueAt(init + [last], name, i) <==> UniqueAt(init, name, i)
  {
    var shapes := init + [last];
    assert shapes[..|shapes| - 1] == init;
    forall i ensures UniqueAt(shapes, name, i) <==> UniqueAt(init, name, i) {
      if UniqueAt(init, name, i) {
        forall j | 0 <= j < |shapes| && shapes[j].name == name ensures j == i {
          if j < |init| { assert init[j] == shapes[j]; }
        }
      }
    }
  }

  /** A last entry of that name is the unique one exactly when no earlier entry matched. */
  lemma MatchingSame(init: seq<ShapeEntry>, last: ShapeEntry, name: string)
    requires last.name == name
    ensures Matching(init + [last], name) == Matching(init, name) + [last]
    ensures Matching(init, name) == [] ==> UniqueAt(init + [last], name, |init|)
    ensures Matching(init, name) != [] ==> forall i :: !UniqueAt(init + [last], name, i)
  {
    var shapes := init + [last];
    var n := |init|;
    assert shapes[..|shapes| - 1] == init;
    if Matching(init, name) == [] {
      forall j | 0 <= j < n ensures init[j].name != name {
        assert init[j] !in Matching(init, name);
      }
      assert UniqueAt(shapes, name, n);
    } else {
      var m := Matching(init, name)[0];
      assert m in Matching(init, name);
      var k :| 0 <= k < n && init[k] == m;
      assert shapes[k].name == name && shapes[n].name == name && k != n;
    }
  }

  /** The name is found exactly once. */
  predicate Resolves(shapes: seq<ShapeEntry>, name: string)
  {
    exists i :: 0 <= i < |shapes| && UniqueAt(shapes, name, i)
  }

  lemma {:induction false} MatchingOne(shapes: seq<ShapeEntry>, name: string)
    ensures |Matching(shapes, name)| == 1 <==> exists i :: UniqueAt(shapes, name, i)
    ensures forall i :: UniqueAt(shapes, name, i) ==> Matching(shapes, name) == [shapes[i]]
    decreases |shapes|
  {
    if shapes != [] {
      var init, last := shapes[..|shapes| - 1], shapes[|shapes| - 1];
      assert shapes == init + [last];
      MatchingOne(init, name);
      if last.name == name {
        MatchingSame(init, last, name);
        if Matching(init, name) == [] {
          forall i | UniqueAt(shapes, name, i) ensures i == |init| { }
        }
      } else {
        MatchingOther(init, last, name);
      }
    }
  }

  /** `country_search` succeeds exactly when one entry carries the name, and returns that
      entry's geometry; otherwise it reports the name. */
  lemma CountrySearchSpec(shapes: seq<ShapeEntry>, name: string)
    ensures CountrySearch(shapes, name).Ok? <==> Resolves(shapes, name)
    ensures forall i :: UniqueAt(shapes, name, i) ==> CountrySearch(shapes, name) == Ok(shapes[i].geometry)
    ensures CountrySearch(shapes, name).Err? ==>
      CountrySearch(shapes, name) == Err(ResolutionError(name, |Matching(shapes, name)|))
  {
    MatchingOne(shapes, name);
  }

  /** A name that no entry carries is reported with no matches. */
  lemma {:induction false} CountryMissing(shapes: seq<ShapeEntry>, name: string)
    requires forall i :: 0 <= i < |shapes| ==> shapes[i].name != name
    ensures Matching(shapes, name) == []
    ensures CountrySearch(shapes, name) == Err(ResolutionError(name, 0))
    decreases |shapes|
  {
    if shapes != [] {
      var init := shapes[..|shapes| - 1];
      assert forall i :: 0 <= i < |init| ==> init[i] == shapes[i];
      CountryMissing(init, name);
    }
  }

  /** No two entries share a name, as after `groupby(all_shapes.index).last()`. */
  predicate DistinctNames(shapes: seq<ShapeEntry>)
  {
    forall i, j :: 0 <= i < j < |shapes| ==> shapes[i].name != shapes[j].name
  }

  lemma {:induction false} MatchingDistinct(shapes: seq<ShapeEntry>, name: string)
    requires DistinctNames(shapes)
    ensures |Matching(shapes, name)| <= 1
    decreases |shapes|
  {
    if shapes != [] {
      var init, last := shapes[..|shapes| - 1], shapes[|shapes| - 1];
      assert shapes == init + [last];
      MatchingDistinct(init, name);
      if last.name == name {
        forall j | 0 <= j < |init| ensures init[j].name != name {
          assert shapes[j] == init[j];
        }
        CountryMissing(init, name);
      } else {
        MatchingOther(init, last, name);
      }
    }
  }

  /** Over a shapefile without repeated names the search fails only on a name that is not
      there. */
  lemma CountryDistinct(shapes: seq<ShapeEntry>, name: string)
    requires DistinctNames(shapes)
    ensures CountrySearch(shapes, name).Err? ==> CountrySearch(shapes, name) == Err(ResolutionError(name, 0))
  {
    MatchingDistinct(shapes, name);
  }

  // ---------------------------------------------------------------- multiple_country_search

  /** `xs` in front of a list that may have failed. */
  function Prepend<T>(xs: seq<T>, r: Result<seq<T>>): Result<seq<T>>
  {
    match r
    case Err(err) => Err(err)
    case Ok(ys) => Ok(xs + ys)
  }

  /** A list built by appending `f(x)` for each `x` in turn, the first call that raises
      ending the loop with its error. */
  function MapAll<A, B>(f: A -> Result<B>, xs: seq<A>): Result<seq<B>>
    decreases |xs|
  {
    if xs == [] then Ok([])
    else
      match f(xs[0])
      case Err(err) => Err(err)
      case Ok(y) => Prepend([y], MapAll(f, xs[1..]))
  }

  /** The loop succeeds exactly when every call does, giving one result per element in
      order; otherwise it fails with the error of the first call that raised. */
  lemma {:induction false} MapAllSpec<A, B>(f: A -> Result<B>, xs: seq<A>)
    ensures MapAll(f, xs).Ok? <==> forall k :: 0 <= k < |xs| ==> f(xs[k]).Ok?
    ensures var r := MapAll(f, xs);
      r.Ok? ==> |r.value| == |xs| && forall k :: 0 <= k < |xs| ==> r.value[k] == f(xs[k]).value
    ensures var r := MapAll(f, xs);
      r.Err? ==> exists k :: (0 <= k < |xs| && f(xs[k]).Err? && r.error == f(xs[k]).error
        && forall j :: 0 <= j < k ==> f(xs[j]).Ok?)
    decreases |xs|
  {
    if xs != [] {
      var tail := xs[1..];
      MapAllSpec(f, tail);
      assert forall k :: 1 <= k < |xs| ==> xs[k] == tail[k - 1];
      if f(xs[0]).Ok? && MapAll(f, tail).Err? {
        var k :| 0 <= k < |tail| && f(tail[k]).Err? && MapAll(f, tail).error == f(tail[k]).error
          && forall j :: 0 <= j < k ==> f(tail[j]).Ok?;
        assert f(xs[k + 1]).Err? && MapAll(f, xs).error == f(xs[k + 1]).error;
        forall j | 0 <= j < k + 1 ensures f(xs[j]).Ok? {
          if j > 0 { assert xs[j] == tail[j - 1]; }
        }
      }
      if f(xs[0]).Err? {
        assert MapAll(f, xs).error == f(xs[0]).error;
      }
    }
  }

  /** One step of the loop: the result so far, then the rest. */
  lemma MapAllStep<A, B>(f: A -> Result<B>, xs: seq<A>, i: nat, done: seq<B>)
    requires i < |xs| && MapAll(f, xs) == Prepend(done, MapAll(f, xs[i..])) && f(xs[i]).Ok?
    ensures MapAll(f, xs) == Prepend(done + [f(xs[i]).value], MapAll(f, xs[i + 1..]))
  {
    assert xs[i..][0] == xs[i] && xs[i..][1..] == xs[i + 1..];
    var rest := MapAll(f, xs[i + 1..]);
    if rest.Ok? {
      assert done + ([f(xs[i]).value] + rest.value) == done + [f(xs[i]).value] + rest.value;
    }
  }

  /** The loop stops at a call that raises, with that call's error. */
  lemma MapAllStop<A, B>(f: A -> Result<B>, xs: seq<A>, i: nat, done: seq<B>)
    requires i < |xs| && MapAll(f, xs) == Prepend(done, MapAll(f, xs[i..])) && f(xs[i]).Err?
    ensures MapAll(f, xs) == Err(f(xs[i]).error)
  {
    assert xs[i..][0] == xs[i];
  }

  /** Before the loop nothing is done; after it nothing is left. */
  lemma MapAllEnds<A, B>(f: A -> Result<B>, xs: seq<A>, done: seq<B>)
    ensures MapAll(f, xs) == Prepend([], MapAll(f, xs[0..]))
    ensures MapAll(f, xs) == Prepend(done, MapAll(f, xs[|xs|..])) ==> MapAll(f, xs) == Ok(done)
  {
    assert xs[0..] == xs;
    var r := MapAll(f, xs);
    if r.Ok? { assert [] + r.value == r.value; }
    assert xs[|xs|..] == [];
    assert done + [] == done;
  }

  /** Every part searched in turn; the first part that does not resolve stops the search. */
  function SearchAll(shapes: seq<ShapeEntry>, parts: seq<string>): Result<seq<Geometry>>
  {
    MapAll(name => CountrySearch(shapes, name), parts)
  }

  /** `multiple_country_search`: the geometries of the `+`-separated names, in order; their
      union is kept as the list. */
  function MultipleSearch(shapes: seq<ShapeEntry>, countrynames: string): Result<seq<Geometry>>
  {
    SearchAll(shapes, Split(countrynames, "+"))
  }

  /** The parts resolve exactly when each names exactly one entry. */
  lemma SearchAllOk(shapes: seq<ShapeEntry>, parts: seq<string>)
    ensures SearchAll(shapes, parts).Ok? <==> forall k :: 0 <= k < |parts| ==> Resolves(shapes, parts[k])
  {
    var f := name => CountrySearch(shapes, name);
    MapAllSpec(f, parts);
    if SearchAll(shapes, parts).Ok? {
      forall k | 0 <= k < |parts| ensures Resolves(shapes, parts[k]) {
        CountrySearchSpec(shapes, parts[k]);
      }
    } else {
      var k :| 0 <= k < |parts| && f(parts[k]).Err? && SearchAll(shapes, parts).error == f(parts[k]).error
        && forall j :: 0 <= j < k ==> f(parts[j]).Ok?;
      CountrySearchSpec(shapes, parts[k]);
      assert !(Resolves(shapes, parts[k]));
    }
  }

  /** Resolved parts give one geometry each, that of the entry the part names. */
  lemma SearchAllValues(shapes: seq<ShapeEntry>, parts: seq<string>)
    requires SearchAll(shapes, parts).Ok?
    ensures var gs := SearchAll(shapes, parts).value;
      |gs| == |parts| && forall k, i :: 0 <= k < |parts| && UniqueAt(shapes, parts[k], i) ==> gs[k] == shapes[i].geometry
  {
    var f := name => CountrySearch(shapes, name);
    MapAllSpec(f, parts);
    var gs := SearchAll(shapes, parts).value;
    forall k, i | 0 <= k < |parts| && UniqueAt(shapes, parts[k], i) ensures gs[k] == shapes[i].geometry {
      CountrySearchSpec(shapes, parts[k]);
    }
  }

  /** A failed search reports the first part that does not name exactly one entry, with
      the number of entries it names. */
  lemma SearchAllError(shapes: seq<ShapeEntry>, parts: seq<string>)
    requires SearchAll(shapes, parts).Err?
    ensures exists k :: (0 <= k < |parts| && !(Resolves(shapes, parts[k]))
      && SearchAll(shapes, parts).error == ResolutionError(parts[k], |Matching(shapes, parts[k])|)
      && forall j :: 0 <= j < k ==> Resolves(shapes, parts[j]))
  {
    var f := name => CountrySearch(shapes, name);
    MapAllSpec(f, parts);
    var k :| 0 <= k < |parts| && f(parts[k]).Err? && SearchAll(shapes, parts).error == f(parts[k]).error
      && forall j :: 0 <= j < k ==> f(parts[j]).Ok?;
    CountrySearchSpec(shapes, parts[k]);
    forall j | 0 <= j < k ensures Resolves(shapes, parts[j]) {
      CountrySearchSpec(shapes, parts[j]);
    }
  }

  /** The loop over one element is that element's call. */
  lemma MapAllSingle<A, B>(f: A -> Result<B>, x: A)
    ensures MapAll(f, [x]) == match f(x) case Err(err) => Err(err) case Ok(y) => Ok([y])
  {
    assert [x][1..] == [];
    if f(x).Ok? { assert [f(x).value] + [] == [f(x).value]; }
  }

  /** A name without `+` is searched on its own. */
  lemma SingleName(shapes: seq<ShapeEntry>, name: string)
    requires Lacks(name, '+')
    ensures MultipleSearch(shapes, name) ==
      match CountrySearch(shapes, name) case Err(err) => Err(err) case Ok(g) => Ok([g])
  {
    assert "+"[0] == '+';
    IndexOfAbsent(name, "+");
    assert Split(name, "+") == [name];
    MapAllSingle(name => CountrySearch(shapes, name), name);
  }

  /** Names joined with `+` are searched one by one, as long as no name holds a `+`. */
  lemma JoinedNames(shapes: seq<ShapeEntry>, names: seq<string>)
    requires |names| >= 1 && forall k :: 0 <= k < |names| ==> Lacks(names[k], '+')
    ensures MultipleSearch(shapes, Join(names, "+")) == SearchAll(shapes, names)
  {
    assert "+"[0] == '+';
    SplitJoin(names, "+");
  }

  // ---------------------------------------------------------------- recompose_polygon_from_countriesnames

  /** The configured names: a list of entries, or one entry as a string. */
  datatype CountryNames = NameList(names: seq<string>) | NameText(text: string)

  /** Every entry of the list resolved in turn, the first failure stopping the loop. */
  function ResolveAll(shapes: seq<ShapeEntry>, names: seq<string>): Result<seq<seq<Geometry>>>
  {
    MapAll(name => MultipleSearch(shapes, name), names)
  }

  /** What `recompose_polygon_from_countriesnames` returns: one geometry list per entry. */
  function RecomposeNames(shapes: seq<ShapeEntry>, countries: CountryNames): Result<seq<seq<Geometry>>>
  {
    match countries
    case NameList(names) => ResolveAll(shapes, names)
    case NameText(text) =>
      match MultipleSearch(shapes, text)
      case Err(err) => Err(err)
      case Ok(gs) => Ok([gs])
  }

  /** A list is resolved exactly when every entry resolves, one geometry list per entry;
      otherwise it fails with the error of the first entry that does not. */
  lemma RecomposeNamesSpec(shapes: seq<ShapeEntry>, names: seq<string>)
    ensures RecomposeNames(shapes, NameList(names)).Ok? <==>
      forall k :: 0 <= k < |names| ==> MultipleSearch(shapes, names[k]).Ok?
    ensures var r := RecomposeNames(shapes, NameList(names));
      r.Ok? ==> |r.value| == |names| && forall k :: 0 <= k < |names| ==> r.value[k] == MultipleSearch(shapes, names[k]).value
    ensures var r := RecomposeNames(shapes, NameList(names));
      r.Err? ==> exists k :: (0 <= k < |names| && MultipleSearch(shapes, names[k]).Err?
        && r.error == MultipleSearch(shapes, names[k]).error
        && forall j :: 0 <= j < k ==> MultipleSearch(shapes, names[j]).Ok?)
  {
    MapAllSpec(name => MultipleSearch(shapes, name), names);
  }

  /** A name given as a string gives the same result as the one-entry list. */
  lemma TextIsOneEntryList(shapes: seq<ShapeEntry>, text: string)
    ensures RecomposeNames(shapes, NameText(text)) == RecomposeNames(shapes, NameList([text]))
  {
    MapAllSingle(name => MultipleSearch(shapes, name), text);
  }

  // ---------------------------------------------------------------- recompose_polygon_from_coordinates

  /** The configured coordinates: `[xs, ys]`, or a list of such pairs (one per polygon of a
      multipolygon, or the exterior then the holes of one polygon). */
  datatype Coordinates = Flat(lists: seq<seq<real>>) | Nested(rings: seq<seq<seq<real>>>)

  /** `zip(xs, ys)`: stops at the shorter list. */
  function Zip(xs: seq<real>, ys: seq<real>): (ps: seq<Coord>)
    ensures |ps| == if |xs| <= |ys| then |xs| else |ys|
    ensures forall i :: 0 <= i < |ps| ==> ps[i] == (xs[i], ys[i])
    decreases |xs|
  {
    if xs == [] || ys == [] then [] else [(xs[0], ys[0])] + Zip(xs[1..], ys[1..])
  }

  /** One element of `for xx, yy in rings`: it must unpack into two lists, whose zip is a
      ring. */
  function Unpack(pair: seq<seq<real>>): Result<seq<Coord>>
  {
    if |pair| != 2 then Err(ValueError("unpack")) else Ok(Zip(pair[0], pair[1]))
  }

  /** The rings of the loop, the first element that does not unpack raising. */
  function ZipRings(rings: seq<seq<seq<real>>>): Result<seq<seq<Coord>>>
  {
    MapAll(Unpack, rings)
  }

  /** A polygon of each ring with no holes. */
  function Filled(rings: seq<seq<Coord>>): (ps: seq<Polygon>)
    ensures |ps| == |rings| && forall i :: 0 <= i < |rings| ==> ps[i] == Polygon(rings[i], [])
    decreases |rings|
  {
    if rings == [] then [] else [Polygon(rings[0], [])] + Filled(rings[1..])
  }

  /** What `recompose_polygon_from_coordinates` returns. `mpolxy[0][0]` is read first; a
      nested list is a multipolygon or a polygon with holes as `polygon_type` says, and any
      other type name leaves `geom` unassigned. */
  function RecomposeCoords(c: Coordinates, polygonType: string): Result<Geometry>
  {
    match c
    case Flat(ls) =>
      if |ls| == 0 || |ls[0]| == 0 || |ls| < 2 then Err(IndexError)
      else Ok(PolygonShape(Polygon(Zip(ls[0], ls[1]), [])))
    case Nested(rs) =>
      if |rs| == 0 || |rs[0]| == 0 then Err(IndexError)
      else if polygonType == "multipolygon" then
        match ZipRings(rs)
        case Err(err) => Err(err)
        case Ok(shells) => Ok(MultiPolygonShape(Filled(shells)))
      else if polygonType == "singlepolygon" then
        if |rs[0]| < 2 then Err(IndexError)
        else
          match ZipRings(rs[1..])
          case Err(err) => Err(err)
          case Ok(holes) => Ok(PolygonShape(Polygon(Zip(rs[0][0], rs[0][1]), holes)))
      else Err(UnboundLocal("geom"))
  }

  /** The rings unpack exactly when each element holds two lists, and each ring is the zip
      of its pair. */
  lemma ZipRingsSpec(rings: seq<seq<seq<real>>>)
    ensures ZipRings(rings).Ok? <==> forall k :: 0 <= k < |rings| ==> |rings[k]| == 2
    ensures ZipRings(rings).Ok? ==> (|ZipRings(rings).value| == |rings|
      && forall k :: 0 <= k < |rings| ==> ZipRings(rings).value[k] == Zip(rings[k][0], rings[k][1]))
    ensures ZipRings(rings).Err? ==> ZipRings(rings) == Err(ValueError("unpack"))
  {
    MapAllSpec(Unpack, rings);
  }

  // ---------------------------------------------------------------- decompose_polygon_for_config

  /** The configured geometry: still a name, or a shape. */
  datatype ConfigGeometry = GeometryName(text: string) | GeometryValue(shape: Geometry)

  /** What `decompose_polygon_for_config` returns: `('', '')` for a name, otherwise the
      coordinate lists and the polygon type. */
  datatype Decomposition = EmptyPair | Decomposed(coords: Coordinates, polygonType: string)

  /** The rings of a polygon, exterior first. */
  function Rings(p: Polygon): seq<seq<Coord>>
  {
    [p.shell] + p.holes
  }

  /** `geom.boundary` as its rings: a polygon's rings, or each part's rings in turn. */
  function Boundary(g: Geometry): seq<seq<Coord>>
  {
    match g
    case PolygonShape(p) => Rings(p)
    case MultiPolygonShape(ps) => AllRings(ps)
  }

  function AllRings(ps: seq<Polygon>): seq<seq<Coord>>
    decreases |ps|
  {
    if ps == [] then [] else Rings(ps[0]) + AllRings(ps[1..])
  }

  /** The boundary is a `MultiLineString`: the polygon has holes, or it is a multipolygon. */
  predicate MultiLine(g: Geometry)
  {
    g.MultiPolygonShape? || |g.polygon.holes| > 0
  }

  function Xs(ring: seq<Coord>): (xs: seq<real>)
    ensures |xs| == |ring| && forall i :: 0 <= i < |ring| ==> xs[i] == ring[i].0
    decreases |ring|
  {
    if ring == [] then [] else [ring[0].0] + Xs(ring[1..])
  }

  function Ys(ring: seq<Coord>): (ys: seq<real>)
    ensures |ys| == |ring| && forall i :: 0 <= i < |ring| ==> ys[i] == ring[i].1
    decreases |ring|
  {
    if ring == [] then [] else [ring[0].1] + Ys(ring[1..])
  }

  /** `[list(r) for r in ring.xy]`. */
  function XY(ring: seq<Coord>): seq<seq<real>>
  {
    [Xs(ring), Ys(ring)]
  }

  /** `[[list(r) for r in pol.xy] for pol in lines.geoms]`. */
  function AllXY(rings: seq<seq<Coord>>): (out: seq<seq<seq<real>>>)
    ensures |out| == |rings| && forall i :: 0 <= i < |rings| ==> out[i] == XY(rings[i])
    decreases |rings|
  {
    if rings == [] then [] else [XY(rings[0])] + AllXY(rings[1..])
  }

  /** What `decompose_polygon_for_config` returns. */
  function Decompose(cg: ConfigGeometry): Decomposition
  {
    match cg
    case GeometryName(_) => EmptyPair
    case GeometryValue(g) =>
      var lines := Boundary(g);
      var coords := if MultiLine(g) then Nested(AllXY(lines)) else Flat(XY(lines[0]));
      Decomposed(coords, if g.MultiPolygonShape? then "multipolygon" else "singlepolygon")
  }

  /** Zipping a ring's two coordinate lists gives the ring back. */
  lemma UnzipZip(ring: seq<Coord>)
    ensures Zip(Xs(ring), Ys(ring)) == ring
  {
    var z := Zip(Xs(ring), Ys(ring));
    assert |z| == |ring|;
    forall i | 0 <= i < |ring| ensures z[i] == ring[i] {
      assert z[i] == (Xs(ring)[i], Ys(ring)[i]) == (ring[i].0, ring[i].1);
    }
  }

  /** Every ring written back unpacks and zips to itself. */
  lemma AllXYRings(rings: seq<seq<Coord>>)
    ensures ZipRings(AllXY(rings)) == Ok(rings)
  {
    var out := AllXY(rings);
    assert forall k :: 0 <= k < |out| ==> |out[k]| == 2;
    ZipRingsSpec(out);
    var v := ZipRings(out).value;
    forall k | 0 <= k < |rings| ensures v[k] == rings[k] {
      assert out[k] == XY(rings[k]) && v[k] == Zip(out[k][0], out[k][1]);
      UnzipZip(rings[k]);
    }
    assert v == rings;
  }

  /** A polygon with a non-empty exterior, with or without holes, is rebuilt as it was. */
  lemma PolygonRoundTrip(p: Polygon)
    requires |p.shell| > 0
    ensures var d := Decompose(GeometryValue(PolygonShape(p)));
      d.Decomposed? && d.polygonType == "singlepolygon" && RecomposeCoords(d.coords, d.polygonType) == Ok(PolygonShape(p))
  {
    var g := PolygonShape(p);
    var lines := Boundary(g);
    UnzipZip(p.shell);
    if |p.holes| > 0 {
      var out := AllXY(lines);
      assert out[0] == XY(p.shell);
      assert out[1..] == AllXY(p.holes) by {
        var h := AllXY(p.holes);
        assert lines[1..] == p.holes;
        forall i | 0 <= i < |h| ensures out[1 + i] == h[i] { assert lines[1 + i] == p.holes[i]; }
      }
      AllXYRings(p.holes);
    }
  }

  /** A multipolygon with at least one part comes back as the multipolygon whose parts are
      all the rings of its boundary, each without holes. */
  lemma MultiPolygonRecomposed(ps: seq<Polygon>)
    requires |ps| > 0
    ensures var d := Decompose(GeometryValue(MultiPolygonShape(ps)));
      d.Decomposed? && d.polygonType == "multipolygon"
      && RecomposeCoords(d.coords, d.polygonType) == Ok(MultiPolygonShape(Filled(AllRings(ps))))
  {
    var lines := AllRings(ps);
    assert |lines| > 0 by { assert lines == Rings(ps[0]) + AllRings(ps[1..]); }
    assert Decompose(GeometryValue(MultiPolygonShape(ps))) == Decomposed(Nested(AllXY(lines)), "multipolygon");
    AllXYRings(lines);
    RecomposeShells(AllXY(lines), lines);
  }

  lemma RecomposeShells(rs: seq<seq<seq<real>>>, shells: seq<seq<Coord>>)
    requires |rs| > 0 && |rs[0]| > 0 && ZipRings(rs) == Ok(shells)
    ensures RecomposeCoords(Nested(rs), "multipolygon") == Ok(MultiPolygonShape(Filled(shells)))
  {
  }

  /** The rings of parts without holes are their exteriors, one per part. */
  lemma {:induction false} AllRingsFilled(ps: seq<Polygon>)
    ensures (forall i :: 0 <= i < |ps| ==> ps[i].holes == []) ==> Filled(AllRings(ps)) == ps
    ensures |AllRings(ps)| >= |ps|
    ensures (exists i :: 0 <= i < |ps| && ps[i].holes != []) ==> |AllRings(ps)| > |ps|
    decreases |ps|
  {
    if ps != [] {
      var tail := ps[1..];
      AllRingsFilled(tail);
      assert AllRings(ps) == Rings(ps[0]) + AllRings(tail);
      assert forall i :: 1 <= i < |ps| ==> ps[i] == tail[i - 1];
      if forall i :: 0 <= i < |ps| ==> ps[i].holes == [] {
        assert ps[0].holes == [];
        var r := AllRings(ps);
        assert r == [ps[0].shell] + AllRings(tail);
        var f := Filled(r);
        assert f == [Polygon(ps[0].shell, [])] + Filled(AllRings(tail)) by {
          assert r[1..] == AllRings(tail);
        }
        assert ps == [ps[0]] + tail;
      }
      if exists i :: 0 <= i < |ps| && ps[i].holes != [] {
        var i :| 0 <= i < |ps| && ps[i].holes != [];
        if i > 0 { assert tail[i - 1].holes != []; }
      }
    }
  }

  /** A multipolygon is rebuilt as it was exactly when no part has holes: the holes of the
      parts come back as parts of their own. */
  lemma MultiPolygonRoundTrip(ps: seq<Polygon>)
    requires |ps| > 0
    ensures var d := Decompose(GeometryValue(MultiPolygonShape(ps)));
      RecomposeCoords(d.coords, d.polygonType) == Ok(MultiPolygonShape(ps)) <==>
        forall i :: 0 <= i < |ps| ==> ps[i].holes == []
  {
    MultiPolygonRecomposed(ps);
    AllRingsFilled(ps);
  }

  /** A multipolygon without parts has nothing to write back. */
  lemma EmptyMultiPolygon()
    ensures var d := Decompose(GeometryValue(MultiPolygonShape([])));
      d == Decomposed(Nested([]), "multipolygon") && RecomposeCoords(d.coords, d.polygonType) == Err(IndexError)
  {
  }

  // ---------------------------------------------------------------- the object

  /** A `config_file`, whose `countryname` attribute exists only once names were
      resolved. */
  class ConfigFile {
    var countryname: Option<seq<string>>

    /** The object before `read_config` resolves its geometry. */
    constructor ()
      ensures countryname == None
    {
      countryname := None;
    }

    /** `multiple_country_search`. */
    method MultipleCountrySearch(shapes: seq<ShapeEntry>, countrynames: string) returns (res: Result<seq<Geometry>>)
      ensures res == MultipleSearch(shapes, countrynames)
    {
      var parts := Split(countrynames, "+");
      ghost var f := name => CountrySearch(shapes, name);
      var all: seq<Geometry> := [];
      var i := 0;
      MapAllEnds(f, parts, all);
      while i < |parts|
        invariant 0 <= i <= |parts|
        invariant MapAll(f, parts) == Prepend(all, MapAll(f, parts[i..]))
      {
        var g := CountrySearch(shapes, parts[i]);
        if g.Err? {
          MapAllStop(f, parts, i, all);
          return Err(g.error);
        }
        MapAllStep(f, parts, i, all);
        all := all + [g.value];
        i := i + 1;
      }
      MapAllEnds(f, parts, all);
      res := Ok(all);
    }

    /** `recompose_polygon_from_countriesnames`: a list is recorded in `countryname` only
        once every entry resolved (it is emptied first); a string is recorded as a
        one-entry list before it is resolved. */
    method RecomposeFromCountryNames(shapes: seq<ShapeEntry>, countries: CountryNames)
      returns (res: Result<seq<seq<Geometry>>>)
      modifies this
      ensures res == RecomposeNames(shapes, countries)
      ensures countries.NameList? ==> countryname == Some(if res.Ok? then countries.names else [])
      ensures countries.NameText? ==> countryname == Some([countries.text])
    {
      match countries
      case NameList(names) =>
        countryname := Some([]);
        ghost var f := name => MultipleSearch(shapes, name);
        var all: seq<seq<Geometry>> := [];
        var i := 0;
        MapAllEnds(f, names, all);
        while i < |names|
          invariant 0 <= i <= |names|
          invariant countryname == Some([])
          invariant MapAll(f, names) == Prepend(all, MapAll(f, names[i..]))
        {
          var gs := MultipleCountrySearch(shapes, names[i]);
          if gs.Err? {
            MapAllStop(f, names, i, all);
            return Err(gs.error);
          }
          MapAllStep(f, names, i, all);
          all := all + [gs.value];
          i := i + 1;
        }
        MapAllEnds(f, names, all);
        countryname := Some(names);
        res := Ok(all);
      case NameText(text) =>
        countryname := Some([text]);
        var gs := MultipleCountrySearch(shapes, text);
        if gs.Err? {
          return Err(gs.error);
        }
        res := Ok([gs.value]);
    }

    /** `recompose_polygon_from_coordinates`. */
    method RecomposeFromCoordinates(c: Coordinates, polygonType: string) returns (res: Result<Geometry>)
      ensures res == RecomposeCoords(c, polygonType)
    {
      match c
      case Flat(ls) =>
        if |ls| == 0 || |ls[0]| == 0 || |ls| < 2 {
          return Err(IndexError);
        }
        res := Ok(PolygonShape(Polygon(Zip(ls[0], ls[1]), [])));
      case Nested(rs) =>
        if |rs| == 0 || |rs[0]| == 0 {
          return Err(IndexError);
        }
        if polygonType == "multipolygon" {
          var shells := UnpackRings(rs);
          if shells.Err? {
            return Err(shells.error);
          }
          res := Ok(MultiPolygonShape(Filled(shells.value)));
        } else if polygonType == "singlepolygon" {
          if |rs[0]| < 2 {
            return Err(IndexError);
          }
          var exterior := Zip(rs[0][0], rs[0][1]);
          var holes := UnpackRings(rs[1..]);
          if holes.Err? {
            return Err(holes.error);
          }
          res := Ok(PolygonShape(Polygon(exterior, holes.value)));
        } else {
          res := Err(UnboundLocal("geom"));
        }
    }

    /** The `for xx, yy in ...: append(zip(xx, yy))` loop. */
    method UnpackRings(rings: seq<seq<seq<real>>>) returns (res: Result<seq<seq<Coord>>>)
      ensures res == ZipRings(rings)
    {
      var all: seq<seq<Coord>> := [];
      var i := 0;
      MapAllEnds(Unpack, rings, all);
      while i < |rings|
        invariant 0 <= i <= |rings|
        invariant MapAll(Unpack, rings) == Prepend(all, MapAll(Unpack, rings[i..]))
      {
        if |rings[i]| != 2 {
          MapAllStop(Unpack, rings, i, all);
          return Err(ValueError("unpack"));
        }
        MapAllStep(Unpack, rings, i, all);
        all := all + [Zip(rings[i][0], rings[i][1])];
        i := i + 1;
      }
      MapAllEnds(Unpack, rings, all);
      res := Ok(all);
    }

    /** `decompose_polygon_for_config`. */
    method DecomposeForConfig(cg: ConfigGeometry) returns (res: Decomposition)
      ensures res == Decompose(cg)
    {
      match cg
      case GeometryName(_) =>
        return EmptyPair;
      case GeometryValue(g) =>
        var lines := Boundary(g);
        var coords: Coordinates;
        if MultiLine(g) {
          var all: seq<seq<seq<real>>> := [];
          var i := 0;
          while i < |lines|
            invariant 0 <= i <= |lines|
            invariant all == AllXY(lines[..i])
          {
            assert lines[..i + 1] == lines[..i] + [lines[i]];
            AllXYAppend(lines[..i], lines[i]);
            all := all + [XY(lines[i])];
            i := i + 1;
          }
          assert lines[..i] == lines;
          coords := Nested(all);
        } else {
          coords := Flat(XY(lines[0]));
        }
        res := Decomposed(coords, if g.MultiPolygonShape? then "multipolygon" else "singlepolygon");
    }
  }

  lemma AllXYAppend(rings: seq<seq<Coord>>, r: seq<Coord>)
    ensures AllXY(rings + [r]) == AllXY(rings) + [XY(r)]
  {
  }
}
