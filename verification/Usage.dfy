/** The drive usage of the dashboard: the sums of `GetAdminInfo` in `api/admin_info.go`. */
module Usage {
  import opened Machine

  const TWO_63: int := 0x8000_0000_0000_0000
  const TWO_64: int := 0x1_0000_0000_0000_0000

  /** The integer that a Go `int64` holds for `x`, wrapping around. */
  function Wrap(x: int): (r: int)
    ensures -TWO_63 <= r < TWO_63
    ensures -TWO_63 <= x < TWO_63 ==> r == x
  {
    var m := x % TWO_64;
    if m < TWO_63 then m else m - TWO_64
  }

  function ToInt64(x: uint64): int64 {
    Wrap(x as int) as int64
  }

  function Add64(a: int64, b: int64): int64 {
    Wrap(a as int + b as int) as int64
  }

  /** `madmin.Disk` and `madmin.ServerProperties`, and the models made of them, as far as
      usage goes. */
  datatype Disk = Disk(uuid: string, totalSpace: uint64, usedSpace: uint64, availableSpace: uint64)
  datatype Server = Server(endpoint: string, disks: seq<Disk>)
  datatype Drive = Drive(uuid: string, totalSpace: int64, usedSpace: int64, availableSpace: int64)
  datatype ServerModel = ServerModel(endpoint: string, drives: seq<Drive>)

  function DriveOf(d: Disk): Drive {
    Drive(d.uuid, ToInt64(d.totalSpace), ToInt64(d.usedSpace), ToInt64(d.availableSpace))
  }

  ghost predicate SameDrives(disks: seq<Disk>, drives: seq<Drive>) {
    |drives| == |disks| && forall j :: 0 <= j < |disks| ==> drives[j] == DriveOf(disks[j])
  }

  ghost predicate SameServer(server: Server, m: ServerModel) {
    m.endpoint == server.endpoint && SameDrives(server.disks, m.drives)
  }

  /** The same servers and drives, in the same order. */
  ghost predicate SameShape(servers: seq<Server>, models: seq<ServerModel>) {
    |models| == |servers| && forall i :: 0 <= i < |servers| ==> SameServer(servers[i], models[i])
  }

  /** The true usage. */
  function DiskTotal(disks: seq<Disk>): nat {
    if disks == [] then 0 else DiskTotal(disks[..|disks| - 1]) + disks[|disks| - 1].usedSpace as nat
  }

  function TrueTotal(servers: seq<Server>): nat {
    if servers == [] then 0 else TrueTotal(servers[..|servers| - 1]) + DiskTotal(servers[|servers| - 1].disks)
  }

  /** The sum of what the models say. */
  function DriveTotal(drives: seq<Drive>): int {
    if drives == [] then 0 else DriveTotal(drives[..|drives| - 1]) + drives[|drives| - 1].usedSpace as int
  }

  function ModelTotal(models: seq<ServerModel>): int {
    if models == [] then 0 else ModelTotal(models[..|models| - 1]) + DriveTotal(models[|models| - 1].drives)
  }

  /** `Wrap` picks the one machine integer that is congruent to its argument. */
  lemma WrapIsCongruent(x: int, r: int)
    ensures r == Wrap(x) <==> -TWO_63 <= r < TWO_63 && (r - x) % TWO_64 == 0
  {
    var m := (Wrap(x) - x) / TWO_64;
    assert Wrap(x) == x + m * TWO_64;
  }

  lemma WrapLaps(x: int) returns (laps: int)
    ensures Wrap(x) == x + laps * TWO_64
  {
    laps := (Wrap(x) - x) / TWO_64;
  }

  lemma WrapPeriod(x: int, laps: int)
    ensures Wrap(x + laps * TWO_64) == Wrap(x)
  {
  }

  /** The running sum over one server's disks, wrapped at every step. */
  function SumDisks(used: int64, disks: seq<Disk>): int64 {
    if disks == [] then used
    else Add64(SumDisks(used, disks[..|disks| - 1]), ToInt64(disks[|disks| - 1].usedSpace))
  }

  function SumServers(servers: seq<Server>): int64 {
    if servers == [] then 0
    else SumDisks(SumServers(servers[..|servers| - 1]), servers[|servers| - 1].disks)
  }

  /** Wrapping early loses only whole laps of 2^64. */
  lemma {:induction false} SumDisksIs(used: int64, disks: seq<Disk>) returns (laps: int)
    ensures SumDisks(used, disks) as int == used as int + DiskTotal(disks) + laps * TWO_64
  {
    if disks == [] {
      laps := 0;
    } else {
      var n := |disks| - 1;
      var before := SumDisksIs(used, disks[..n]);
      var one := WrapLaps(disks[n].usedSpace as int);
      var step := WrapLaps(SumDisks(used, disks[..n]) as int + ToInt64(disks[n].usedSpace) as int);
      laps := before + one + step;
    }
  }

  lemma {:induction false} SumServersIs(servers: seq<Server>) returns (laps: int)
    ensures SumServers(servers) as int == TrueTotal(servers) + laps * TWO_64
  {
    if servers == [] {
      laps := 0;
    } else {
      var n := |servers| - 1;
      var before := SumServersIs(servers[..n]);
      var last := SumDisksIs(SumServers(servers[..n]), servers[n].disks);
      laps := before + last;
    }
  }

  /** What the models show adds up to the true total, up to whole laps. */
  lemma {:induction false} DriveTotalIs(disks: seq<Disk>, drives: seq<Drive>) returns (laps: int)
    requires SameDrives(disks, drives)
    ensures DriveTotal(drives) == DiskTotal(disks) + laps * TWO_64
  {
    if disks == [] {
      laps := 0;
    } else {
      var n := |disks| - 1;
      var before := DriveTotalIs(disks[..n], drives[..n]);
      var one := WrapLaps(disks[n].usedSpace as int);
      assert drives[n] == DriveOf(disks[n]);
      laps := before + one;
    }
  }

  lemma {:induction false} ModelTotalIs(servers: seq<Server>, models: seq<ServerModel>) returns (laps: int)
    requires SameShape(servers, models)
    ensures ModelTotal(models) == TrueTotal(servers) + laps * TWO_64
  {
    if servers == [] {
      laps := 0;
    } else {
      var n := |servers| - 1;
      assert SameServer(servers[n], models[n]);
      var before := ModelTotalIs(servers[..n], models[..n]);
      var last := DriveTotalIs(servers[n].disks, models[n].drives);
      laps := before + last;
    }
  }

  /** The running sum is the wrapped true total and the wrapped total of the models. */
  lemma SumIs(servers: seq<Server>, models: seq<ServerModel>)
    requires SameShape(servers, models)
    ensures SumServers(servers) as int == Wrap(TrueTotal(servers)) == Wrap(ModelTotal(models))
  {
    var laps := SumServersIs(servers);
    var laps' := ModelTotalIs(servers, models);
    WrapPeriod(TrueTotal(servers), laps);
    WrapPeriod(TrueTotal(servers), laps');
  }

  /** The loop over one server's disks. */
  method AddDrives(disks: seq<Disk>, used: int64) returns (drives: seq<Drive>, used': int64)
    ensures SameDrives(disks, drives)
    ensures used' == SumDisks(used, disks)
  {
    drives, used' := [], used;
    for j := 0 to |disks|
      invariant SameDrives(disks[..j], drives)
      invariant used' == SumDisks(used, disks[..j])
    {
      assert disks[..j + 1][..j] == disks[..j];
      used' := Add64(used', ToInt64(disks[j].usedSpace));
      drives := drives + [DriveOf(disks[j])];
    }
    assert disks[..|disks|] == disks;
  }

  /** The reported usage is the wrapped sum of the reported drives and the wrapped true
      total, and is right exactly as long as the true total is below 2^63; servers and
      drives keep their order and number. */
  method GetAdminInfo(servers: seq<Server>) returns (drivesUsage: int64, serverArray: seq<ServerModel>)
    ensures SameShape(servers, serverArray)
    ensures drivesUsage as int == Wrap(ModelTotal(serverArray)) == Wrap(TrueTotal(servers))
    ensures (drivesUsage as int - TrueTotal(servers)) % TWO_64 == 0
    ensures drivesUsage as int == TrueTotal(servers) <==> TrueTotal(servers) < TWO_63
  {
    drivesUsage, serverArray := 0, [];
    for i := 0 to |servers|
      invariant SameShape(servers[..i], serverArray)
      invariant drivesUsage == SumServers(servers[..i])
    {
      assert servers[..i + 1][..i] == servers[..i];
      var drives;
      drives, drivesUsage := AddDrives(servers[i].disks, drivesUsage);
      serverArray := serverArray + [ServerModel(servers[i].endpoint, drives)];
    }
    assert servers[..|servers|] == servers;
    SumIs(servers, serverArray);
    WrapIsCongruent(TrueTotal(servers), drivesUsage as int);
  }
}
