/** The drag build-up table: one record per row of the parallel `geo_*`
    vectors, and the vehicle queries the build-up makes. */
module DragRows {
  import opened Values

  /** Surface type of a geometry surface (vsp::NORMAL_SURF, WING_SURF, DISK_SURF). */
  datatype SurfType = NormalSurf | WingSurf | DiskSurf

  /** The geometry types the build-up tells apart. */
  datatype GeomKind = CustomGeom | MeshGeom | BlankGeom | HingeGeom | OtherGeom

  /** One row of the build-up: a main surface or a sub-surface copy of a geometry.
      Fields this model does not compute (Swet, Lref, Re, Cf, fineness ratio,
      computed form factor) come from the stages that precede it. */
  datatype Row = Row(
    geomID: string,
    subSurfID: string,   // "" for a main-surface row
    rowLabel: string,
    surfNum: int,
    ancestorGen: int,    // grouped-ancestor generation; -1 on sub-surface rows
    expandedList: bool,
    shapeType: SurfType,
    ffType: int,         // form factor equation selector
    percLam: real,
    ffIn: real,          // user form factor, -1 when none
    q: real,             // interference factor, -1 when none
    roughness: real,
    teTwRatio: real,
    tawTwRatio: real,
    swet: real,
    lref: real,
    re: real,
    cf: Value,
    fineRat: real,
    ffOut: Value,        // computed form factor
    f: Value,            // drag area
    cd: real,
    percTotalCd: real)

  /** A sub-surface of a geometry. */
  datatype SubSurf = SubSurf(id: string, name: string)

  /** What the table builder reads from a geometry. */
  datatype GeomDesc = GeomDesc(
    id: string,
    name: string,
    kind: GeomKind,
    surfTypes: seq<SurfType>,   // one entry per surface, GetNumTotalSurfs() of them
    numSymmCopies: nat,
    subSurfs: seq<SubSurf>,
    groupedAncestorGen: int,
    percLam: real,
    ffUser: real,
    q: real,
    roughness: real,
    teTwRatio: real,
    tawTwRatio: real,
    expandedListFlag: bool,
    ffBodyEqnType: int,
    ffWingEqnType: int)

  /** The vehicle as the build-up sees it: geometry lookup by ID, each
      geometry's expanded-list flag, its ancestor `gen` generations up, and
      whether a sub-surface is included in the wetted area. */
  datatype Vehicle = Vehicle(
    find: string -> Option<GeomDesc>,
    expanded: string -> bool,
    ancestorOf: (string, int) -> string,
    included: (string, string) -> bool)
}
