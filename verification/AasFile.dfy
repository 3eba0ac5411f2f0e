/** Records of a loaded AAS file, as far as navigation reads them. */
module AasFile {

  datatype Vec3 = Vec3(x: real, y: real, z: real)

  /** Reachability to another area. */
  datatype Reachability = Reachability(
    areanum: nat, facenum: int, edgenum: int, start: Vec3, end: Vec3, traveltype: bv32, traveltime: nat)

  /** cluster > 0: the cluster the area is in; cluster < 0: the area is portal number -cluster. */
  datatype AreaSettings = AreaSettings(
    contents: bv32, areaflags: bv32, cluster: int, clusterareanum: nat,
    numreachableareas: nat, firstreachablearea: nat)

  /** clusterareanum: the portal area's number in its front and in its back cluster. */
  datatype Portal = Portal(
    areanum: nat, frontcluster: nat, backcluster: nat, clusterareanum: (nat, nat))

  datatype Cluster = Cluster(
    numareas: nat, numreachabilityareas: nat, numportals: nat, firstportal: nat)

  const AREACONTENTS_CLUSTERPORTAL: bv32 := 8
  const AREACONTENTS_DONOTENTER: bv32 := 256
  const AREA_DISABLED: bv32 := 8

  const MAX_TRAVELTYPES: nat := 32
  const TRAVELTYPE_MASK: bv32 := 0xFFFFFF
  const TRAVELFLAG_NOTTEAM1: bv32 := 0x1000000
  const TRAVELFLAG_NOTTEAM2: bv32 := 0x2000000
  const TRAVEL_ELEVATOR: bv32 := 11
  const TRAVEL_GRAPPLEHOOK: bv32 := 14
  const TRAVEL_JUMPPAD: bv32 := 18
  const TRAVEL_FUNCBOB: bv32 := 19

  const TFL_INVALID: bv32 := 0x1
  const TFL_NOTTEAM1: bv32 := 0x8000000
  const TFL_NOTTEAM2: bv32 := 0x10000000
  const TFL_DONOTENTER: bv32 := 0x800000
}
