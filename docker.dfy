/** The `docker ps` row builder of src/docker.rs: port mappings as text, and container
    summaries as table rows, with every port after a container's first spilled into
    an extra row of its own. */
module Docker {
  import opened Wrappers
  import opened Text
  import opened Ints
  import opened Seqs
  import Table

  /** Characters kept of a container id, and of an image id after its prefix. */
  const IdLength: nat := 12
  /** The prefix of an image id; only its length is used, to skip it. */
  const ImageIdPrefix: string := "sha256:"

  datatype PortType = Empty | Tcp | Udp | Sctp

  /** A port of a container summary. */
  datatype Port = Port(ip: Option<string>, privatePort: u16, publicPort: Option<u16>, typ: Option<PortType>)

  // Port mappings

  function TypeSuffix(t: PortType): string {
    match t
    case Empty => ""
    case Tcp => "/tcp"
    case Udp => "/udp"
    case Sctp => "/sctp"
  }

  /** `format_port`: `ip:public->private/type` when both the ip and the public port
      are known (the ip "::" written as "[::]"), otherwise `private/type`. */
  function FormatPort(p: Port): string {
    var private := NatToString(p.privatePort);
    var typ := TypeSuffix(p.typ.GetOr(Empty));
    if p.ip.Some? && p.publicPort.Some? then
      var ipFormat := if p.ip.value == "::" then "[::]:" else p.ip.value + ":";
      ipFormat + NatToString(p.publicPort.value) + "->" + private + typ
    else
      private + typ
  }

  /** What `FormatPort` keeps of a port: the ip and public port only together, the
      ip "::" as "[::]", and an absent type as `Empty`. */
  function Visible(p: Port): Port {
    var typ := Some(p.typ.GetOr(Empty));
    if p.ip.Some? && p.publicPort.Some? then
      Port(Some(if p.ip.value == "::" then "[::]" else p.ip.value), p.privatePort, p.publicPort, typ)
    else
      Port(None, p.privatePort, None, typ)
  }

  predicate EndsWith(s: string, suffix: string) {
    |suffix| <= |s| && s[|s| - |suffix|..] == suffix
  }

  /** Splits off a protocol suffix, if there is one. */
  function SplitSuffix(s: string): (string, PortType) {
    if EndsWith(s, "/tcp") then (s[..|s| - 4], Tcp)
    else if EndsWith(s, "/udp") then (s[..|s| - 4], Udp)
    else if EndsWith(s, "/sctp") then (s[..|s| - 5], Sctp)
    else (s, Empty)
  }

  /** Splits `s` before its longest run of trailing digits. */
  function SplitDigits(s: string): (r: (string, string))
    ensures AllDigits(r.1)
  {
    if |s| == 0 || !IsDigit(s[|s| - 1]) then (s, "")
    else
      var (front, digits) := SplitDigits(s[..|s| - 1]);
      (front, digits + [s[|s| - 1]])
  }

  /** Reads back a port mapping written by `FormatPort`. */
  function ParsePort(s: string): Option<Port> {
    var (rest, typ) := SplitSuffix(s);
    ParseAddress(rest, typ)
  }

  /** Reads `private` or `ip:public->private` (the type suffix already split off). */
  function ParseAddress(rest: string, typ: PortType): Option<Port> {
    var (front, private) := SplitDigits(rest);
    if |private| == 0 || DigitsValue(private) >= 0x1_0000 then None
    else if front == "" then Some(Port(None, DigitsValue(private), None, Some(typ)))
    else ParsePublic(front, DigitsValue(private), typ)
  }

  /** Reads the `ip:public->` in front of the private port. */
  function ParsePublic(front: string, private: u16, typ: PortType): Option<Port> {
    if !EndsWith(front, "->") then None
    else
      var (lead, public) := SplitDigits(front[..|front| - 2]);
      if |public| == 0 || DigitsValue(public) >= 0x1_0000 || !EndsWith(lead, ":") then None
      else Some(Port(Some(lead[..|lead| - 1]), private, Some(DigitsValue(public)), Some(typ)))
  }

  lemma {:induction false} SplitDigitsOf(front: string, digits: string)
    requires AllDigits(digits)
    requires |front| == 0 || !IsDigit(front[|front| - 1])
    ensures SplitDigits(front + digits) == (front, digits)
    decreases |digits|
  {
    if |digits| == 0 {
      assert front + digits == front;
    } else {
      var s := front + digits;
      var init, last := digits[..|digits| - 1], digits[|digits| - 1];
      assert s[..|s| - 1] == front + init;
      assert s[|s| - 1] == last && IsDigit(last);
      SplitDigitsOf(front, init);
      assert SplitDigits(s) == (front, init + [last]);
      assert init + [last] == digits;
    }
  }

  lemma {:induction false} SplitDigitsAll(digits: string)
    requires AllDigits(digits)
    ensures SplitDigits(digits) == ("", digits)
  {
    if |digits| > 0 {
      SplitDigitsAll(digits[..|digits| - 1]);
      assert digits[..|digits| - 1] + [digits[|digits| - 1]] == digits;
    }
  }

  /** A text ending in a digit followed by a protocol suffix splits at that suffix. */
  lemma SplitSuffixOf(x: string, t: PortType)
    requires |x| > 0 && IsDigit(x[|x| - 1])
    ensures SplitSuffix(x + TypeSuffix(t)) == (x, t)
  {
    match t
    case Empty => SplitNoSuffix(x);
    case Tcp => SplitTcp(x);
    case Udp => SplitUdp(x);
    case Sctp => SplitSctp(x);
  }

  /** A text whose last character differs from a suffix's last character does not end
      in that suffix. */
  lemma LastDiffers(s: string, suffix: string)
    requires |s| > 0 && |suffix| > 0 && s[|s| - 1] != suffix[|suffix| - 1]
    ensures !EndsWith(s, suffix)
  {
  }

  lemma SplitNoSuffix(x: string)
    requires |x| > 0 && IsDigit(x[|x| - 1])
    ensures SplitSuffix(x + "") == (x, Empty)
  {
    assert x + "" == x;
    LastDiffers(x, "/tcp");
    LastDiffers(x, "/udp");
    LastDiffers(x, "/sctp");
  }

  lemma SplitTcp(x: string)
    ensures SplitSuffix(x + "/tcp") == (x, Tcp)
  {
    var s := x + "/tcp";
    assert s[..|s| - 4] == x;
    assert s[|s| - 4..] == "/tcp";
  }

  lemma SplitUdp(x: string)
    ensures SplitSuffix(x + "/udp") == (x, Udp)
  {
    var s := x + "/udp";
    assert s[..|s| - 4] == x;
    assert s[|s| - 4..] == "/udp";
    assert !EndsWith(s, "/tcp") by {
      assert s[|s| - 4..][1] == 'u';
    }
  }

  lemma SplitSctp(x: string)
    ensures SplitSuffix(x + "/sctp") == (x, Sctp)
  {
    var s := x + "/sctp";
    assert s[..|s| - 5] == x;
    assert s[|s| - 5..] == "/sctp";
    assert !EndsWith(s, "/tcp") && !EndsWith(s, "/udp") by {
      assert s[|s| - 4..][0] == 's';
    }
  }

  lemma ParsePublicOf(ipFormat: string, pub: string, private: u16, t: PortType)
    requires |pub| > 0 && AllDigits(pub) && DigitsValue(pub) < 0x1_0000 && EndsWith(ipFormat, ":")
    ensures ParsePublic(ipFormat + pub + "->", private, t) ==
      Some(Port(Some(ipFormat[..|ipFormat| - 1]), private, Some(DigitsValue(pub)), Some(t)))
  {
    var front := ipFormat + pub + "->";
    assert EndsWith(front, "->") by {
      assert front[|front| - 2..] == "->";
    }
    assert front[..|front| - 2] == ipFormat + pub;
    assert !IsDigit(ipFormat[|ipFormat| - 1]) by {
      assert ipFormat[|ipFormat| - 1..] == ":";
      assert ipFormat[|ipFormat| - 1] == ':';
    }
    SplitDigitsOf(ipFormat, pub);
  }

  lemma ParseAddressOf(front: string, priv: string, t: PortType)
    requires |priv| > 0 && AllDigits(priv) && DigitsValue(priv) < 0x1_0000
    requires front != "" && !IsDigit(front[|front| - 1])
    ensures ParseAddress(front + priv, t) == ParsePublic(front, DigitsValue(priv), t)
  {
    SplitDigitsOf(front, priv);
  }

  /** Reading back `ipFormat public -> private typ`. */
  lemma ParseMapped(ipFormat: string, public: nat, private: nat, t: PortType)
    requires public < 0x1_0000 && private < 0x1_0000 && EndsWith(ipFormat, ":")
    ensures ParsePort(ipFormat + NatToString(public) + "->" + NatToString(private) + TypeSuffix(t)) ==
      Some(Port(Some(ipFormat[..|ipFormat| - 1]), private, Some(public), Some(t)))
  {
    var pub, priv := NatToString(public), NatToString(private);
    NatToStringRoundTrip(public);
    NatToStringRoundTrip(private);
    var front := ipFormat + pub + "->";
    ParsePublicOf(ipFormat, pub, private, t);
    ParseAddressOf(front, priv, t);
    assert (front + priv)[|front + priv| - 1] == priv[|priv| - 1];
    SplitSuffixOf(front + priv, t);
  }

  lemma ParseBareOf(priv: string, t: PortType)
    requires |priv| > 0 && AllDigits(priv) && DigitsValue(priv) < 0x1_0000
    ensures ParsePort(priv + TypeSuffix(t)) == Some(Port(None, DigitsValue(priv), None, Some(t)))
  {
    SplitSuffixOf(priv, t);
    SplitDigitsAll(priv);
  }

  /** Reading back `private typ`. */
  lemma ParseBare(private: nat, t: PortType)
    requires private < 0x1_0000
    ensures ParsePort(NatToString(private) + TypeSuffix(t)) == Some(Port(None, private, None, Some(t)))
  {
    NatToStringRoundTrip(private);
    ParseBareOf(NatToString(private), t);
  }

  /** `ParsePort` undoes `FormatPort` up to what the text shows. */
  lemma PortRoundTrip(p: Port)
    ensures ParsePort(FormatPort(p)) == Some(Visible(p))
  {
    var t := p.typ.GetOr(Empty);
    if p.ip.Some? && p.publicPort.Some? {
      var ipFormat := if p.ip.value == "::" then "[::]:" else p.ip.value + ":";
      ParseMapped(ipFormat, p.publicPort.value, p.privatePort, t);
      assert ipFormat[..|ipFormat| - 1] == (if p.ip.value == "::" then "[::]" else p.ip.value);
    } else {
      ParseBare(p.privatePort, t);
    }
  }

  // Container summaries as table rows

  /** The network settings of a container summary; `networks` lists the network names
      in the order the map yields its keys. */
  datatype NetworkSettings = NetworkSettings(networks: Option<seq<string>>)

  /** The fields of a container summary that `ps` reads. */
  datatype Container = Container(
    id: Option<string>,
    names: Option<seq<string>>,
    image: Option<string>,
    imageId: Option<string>,
    ports: Option<seq<Port>>,
    sizeRootFs: Option<int>,
    status: Option<string>,
    networkSettings: Option<NetworkSettings>)

  /** One line of the `ps` table. */
  datatype PsRow = PsRow(id: string, names: string, ports: string, status: string, size: string, image: string, nets: string)

  /** `PsRow::default()`. */
  const EmptyRow := PsRow("", "", "", "", "", "", "")

  /** `ps` expects an image id wherever there is an image. */
  predicate HasImageIds(containers: seq<Container>) {
    forall k :: 0 <= k < |containers| ==> containers[k].image.Some? ==> containers[k].imageId.Some?
  }

  /** `image/short-id`: the image id without its prefix, cut to `IdLength` characters. */
  function ImageLabel(image: string, imageId: string): string {
    image + "/" + Take(Skip(imageId, |ImageIdPrefix|), IdLength)
  }

  function NetsOf(c: Container): string {
    if c.networkSettings.Some? && c.networkSettings.value.networks.Some? then
      Join(c.networkSettings.value.networks.value, ", ")
    else ""
  }

  /** The row for the container itself; it shows the first port, if any. */
  function MainRow(c: Container): PsRow
    requires c.image.Some? ==> c.imageId.Some?
  {
    PsRow(
      if c.id.Some? then Take(c.id.value, IdLength) else "",
      if c.names.Some? then Join(c.names.value, ", ") else "",
      if c.ports.Some? && |c.ports.value| > 0 then FormatPort(c.ports.value[0]) else "",
      c.status.GetOr(""),
      if c.sizeRootFs.Some? then IntToString(c.sizeRootFs.value) else "",
      if c.image.Some? then ImageLabel(c.image.value, c.imageId.value) else "",
      NetsOf(c))
  }

  /** A row holding nothing but a port. */
  function PortRow(p: Port): PsRow {
    EmptyRow.(ports := FormatPort(p))
  }

  function PortRows(ports: seq<Port>): (rows: seq<PsRow>)
    ensures |rows| == |ports|
  {
    seq(|ports|, i requires 0 <= i < |ports| => PortRow(ports[i]))
  }

  /** The rows for the ports after the first one. */
  function ExtraRows(c: Container): seq<PsRow> {
    if c.ports.Some? && |c.ports.value| > 0 then PortRows(c.ports.value[1..]) else []
  }

  function ContainerRows(c: Container): seq<PsRow>
    requires c.image.Some? ==> c.imageId.Some?
  {
    [MainRow(c)] + ExtraRows(c)
  }

  /** The rows of `ps`: each container's rows, containers in the order given. */
  function PsTable(containers: seq<Container>): seq<PsRow>
    requires HasImageIds(containers)
  {
    if |containers| == 0 then []
    else PsTable(containers[..|containers| - 1]) + ContainerRows(containers[|containers| - 1])
  }

  /** The port loop of `Cli::ps`: the first port goes on `row`, every further one on a
      row of its own. */
  method CollapsePorts(before: PsRow, ports: seq<Port>) returns (row: PsRow, collapsed: seq<PsRow>)
    ensures row == if |ports| > 0 then before.(ports := FormatPort(ports[0])) else before
    ensures collapsed == if |ports| > 0 then PortRows(ports[1..]) else []
  {
    row := before;
    collapsed := [];
    for i := 0 to |ports|
      invariant i == 0 ==> row == before && collapsed == []
      invariant i > 0 ==> row == before.(ports := FormatPort(ports[0])) && collapsed == PortRows(ports[1..i])
    {
      if i == 0 {
        row := row.(ports := FormatPort(ports[i]));
        continue;
      }
      var extra := EmptyRow.(ports := FormatPort(ports[i]));
      assert PortRows(ports[1..i + 1]) == PortRows(ports[1..i]) + [extra];
      collapsed := collapsed + [extra];
    }
    assert |ports| > 0 ==> ports[1..|ports|] == ports[1..];
  }

  /** The main row of one container and the rows collapsed under it. */
  method ContainerRow(container: Container) returns (row: PsRow, collapsed: seq<PsRow>)
    requires container.image.Some? ==> container.imageId.Some?
    ensures row == MainRow(container)
    ensures collapsed == ExtraRows(container)
  {
    row := EmptyRow;
    if container.id.Some? {
      row := row.(id := Take(container.id.value, IdLength));
    }
    if container.names.Some? {
      row := row.(names := Join(container.names.value, ", "));
    }
    collapsed := [];
    if container.ports.Some? {
      row, collapsed := CollapsePorts(row, container.ports.value);
    }
    if container.status.Some? {
      row := row.(status := container.status.value);
    }
    if container.sizeRootFs.Some? {
      row := row.(size := IntToString(container.sizeRootFs.value));
    }
    if container.image.Some? {
      var id := Take(Skip(container.imageId.value, |ImageIdPrefix|), IdLength);
      row := row.(image := container.image.value + "/" + id);
    }
    if container.networkSettings.Some? {
      var net := container.networkSettings.value;
      if net.networks.Some? {
        row := row.(nets := Join(net.networks.value, ", "));
      }
    }
  }

  /** The loop of `Cli::ps` that builds the table's rows. */
  method PsRows(containers: seq<Container>) returns (rows: seq<PsRow>)
    requires HasImageIds(containers)
    ensures rows == PsTable(containers)
  {
    rows := [];
    for k := 0 to |containers|
      invariant rows == PsTable(containers[..k])
    {
      var row, collapsed := ContainerRow(containers[k]);
      assert containers[..k + 1][..k] == containers[..k];
      rows := rows + [row] + collapsed;
    }
    assert containers[..|containers|] == containers;
  }

  // What the rows hold

  /** The number of rows a container takes: one per port, and one when it has none. */
  function RowCount(c: Container): nat {
    if c.ports.Some? && |c.ports.value| > 0 then |c.ports.value| else 1
  }

  function TotalRows(containers: seq<Container>): nat {
    if |containers| == 0 then 0 else TotalRows(containers[..|containers| - 1]) + RowCount(containers[|containers| - 1])
  }

  /** The rows after the main one: one per port after the first, in port order, each
      holding its port and nothing else. */
  lemma ExtraRowsShape(c: Container)
    ensures |ExtraRows(c)| == RowCount(c) - 1
    ensures c.ports.Some? ==> forall i :: 1 <= i < |c.ports.value| ==> ExtraRows(c)[i - 1] == PortRow(c.ports.value[i])
    ensures forall i :: 0 <= i < |ExtraRows(c)| ==>
      ExtraRows(c)[i] == EmptyRow.(ports := ExtraRows(c)[i].ports) && ExtraRows(c)[i].ports != ""
  {
    var extra := ExtraRows(c);
    forall i | 0 <= i < |extra|
      ensures extra[i] == EmptyRow.(ports := extra[i].ports) && extra[i].ports != ""
    {
      var p := c.ports.value[i + 1];
      assert extra[i] == PortRow(p);
      assert |NatToString(p.privatePort)| > 0;
    }
  }

  /** A container takes `1 + max(0, #ports - 1)` rows; the ports column lists its ports
      in order, the first on the main row; every further row holds a port and nothing
      else. */
  lemma ContainerRowsShape(c: Container)
    requires c.image.Some? ==> c.imageId.Some?
    ensures |ContainerRows(c)| == RowCount(c)
    ensures ContainerRows(c)[0] == MainRow(c)
    ensures (c.ports.None? || |c.ports.value| == 0) ==> MainRow(c).ports == ""
    ensures c.ports.Some? ==> forall i :: 0 <= i < |c.ports.value| ==> ContainerRows(c)[i].ports == FormatPort(c.ports.value[i])
    ensures forall i :: 1 <= i < |ContainerRows(c)| ==>
      ContainerRows(c)[i] == EmptyRow.(ports := ContainerRows(c)[i].ports) && ContainerRows(c)[i].ports != ""
  {
    ExtraRowsShape(c);
    var main, extra := MainRow(c), ExtraRows(c);
    assert ContainerRows(c) == [main] + extra;
    assert forall i :: 1 <= i < |ContainerRows(c)| ==> ContainerRows(c)[i] == extra[i - 1];
  }

  /** The shown id is the container id cut to its first `IdLength` characters. */
  lemma MainRowId(c: Container)
    requires c.image.Some? ==> c.imageId.Some?
    ensures c.id.None? ==> MainRow(c).id == ""
    ensures c.id.Some? ==> MainRow(c).id <= c.id.value && |MainRow(c).id| == if |c.id.value| < IdLength then |c.id.value| else IdLength
  {
  }

  /** The image column is the image, a slash and characters 7 up to 19 of the image id
      (as far as it reaches); an image id `sha256:` plus at least twelve characters
      shows exactly the twelve after the prefix. */
  lemma MainRowImage(c: Container)
    requires c.image.Some? ==> c.imageId.Some?
    ensures c.image.None? ==> MainRow(c).image == ""
    ensures c.image.Some? ==>
      var iid := c.imageId.value;
      var lo := if |iid| < 7 then |iid| else 7;
      var hi := if |iid| < 19 then |iid| else 19;
      MainRow(c).image == c.image.value + "/" + iid[lo..hi]
    ensures c.image.Some? && ImageIdPrefix <= c.imageId.value && |c.imageId.value| >= |ImageIdPrefix| + IdLength ==>
      MainRow(c).image == c.image.value + "/" + c.imageId.value[|ImageIdPrefix|..|ImageIdPrefix| + IdLength]
  {
    if c.image.Some? {
      var iid := c.imageId.value;
      var lo := if |iid| < 7 then |iid| else 7;
      var hi := if |iid| < 19 then |iid| else 19;
      assert Take(Skip(iid, |ImageIdPrefix|), IdLength) == iid[lo..hi];
    }
  }

  /** Size and status: absent ones stay empty, the size is the decimal text of the
      root file system size. */
  lemma MainRowSizeStatus(c: Container)
    requires c.image.Some? ==> c.imageId.Some?
    ensures c.sizeRootFs.None? ==> MainRow(c).size == ""
    ensures c.sizeRootFs.Some? ==> ParseInt(MainRow(c).size) == Some(c.sizeRootFs.value)
    ensures MainRow(c).status == (if c.status.Some? then c.status.value else "")
  {
    if c.sizeRootFs.Some? {
      IntToStringRoundTrip(c.sizeRootFs.value);
    }
  }

  predicate NoComma(parts: seq<string>) {
    forall i, j :: 0 <= i < |parts| && 0 <= j < |parts[i]| ==> parts[i][j] != ','
  }

  /** Joining with ", " puts exactly one comma between neighbouring parts. */
  lemma {:induction false} JoinCommas(parts: seq<string>)
    requires NoComma(parts)
    ensures Occurrences(Join(parts, ", "), ',') == if |parts| == 0 then 0 else |parts| - 1
  {
    if |parts| == 0 {
    } else if |parts| == 1 {
      OccurrencesAbsent(parts[0], ',');
    } else {
      OccurrencesAbsent(parts[0], ',');
      assert NoComma(parts[1..]) by {
        forall i, j | 0 <= i < |parts[1..]| && 0 <= j < |parts[1..][i]|
          ensures parts[1..][i][j] != ','
        {
          assert parts[1..][i] == parts[i + 1];
        }
      }
      JoinCommas(parts[1..]);
      OccurrencesAppend(parts[0], ", ", ',');
      OccurrencesAppend(parts[0] + ", ", Join(parts[1..], ", "), ',');
      assert Occurrences(", ", ',') == 1 by {
        assert ", "[..1] == ",";
        assert ","[..0] == "";
      }
    }
  }

  /** Names and networks: absent ones stay empty, a single one is shown as it is, and
      comma-free names are separated by exactly `#names - 1` commas. */
  lemma MainRowNames(c: Container)
    requires c.image.Some? ==> c.imageId.Some?
    ensures c.names.None? ==> MainRow(c).names == ""
    ensures c.names.Some? && |c.names.value| == 1 ==> MainRow(c).names == c.names.value[0]
    ensures c.names.Some? && |c.names.value| > 0 && NoComma(c.names.value) ==>
      Occurrences(MainRow(c).names, ',') == |c.names.value| - 1
    ensures (c.networkSettings.None? || c.networkSettings.value.networks.None?) ==> MainRow(c).nets == ""
  {
    if c.names.Some? && NoComma(c.names.value) {
      JoinCommas(c.names.value);
    }
  }

  lemma HasImageIdsPrefix(containers: seq<Container>, n: nat)
    requires HasImageIds(containers) && n <= |containers|
    ensures HasImageIds(containers[..n])
  {
    forall k | 0 <= k < n ensures containers[..n][k].image.Some? ==> containers[..n][k].imageId.Some? {
      assert containers[..n][k] == containers[k];
    }
  }

  /** One more container adds its own rows at the end. */
  lemma PsTableSnoc(front: seq<Container>, c: Container)
    requires HasImageIds(front) && (c.image.Some? ==> c.imageId.Some?)
    ensures HasImageIds(front + [c])
    ensures PsTable(front + [c]) == PsTable(front) + ContainerRows(c)
  {
    var all := front + [c];
    assert HasImageIds(all) by {
      forall k | 0 <= k < |all| ensures all[k].image.Some? ==> all[k].imageId.Some? {
        if k < |front| { assert all[k] == front[k]; } else { assert all[k] == c; }
      }
    }
    assert all[..|all| - 1] == front;
    assert all[|all| - 1] == c;
  }

  /** The rows of two lists of containers are the rows of the first, then the rows
      of the second. */
  lemma {:induction false} PsTableAppend(a: seq<Container>, b: seq<Container>)
    requires HasImageIds(a) && HasImageIds(b)
    ensures HasImageIds(a + b)
    ensures PsTable(a + b) == PsTable(a) + PsTable(b)
    decreases |b|
  {
    if |b| == 0 {
      assert a + b == a;
    } else {
      var b', last := b[..|b| - 1], b[|b| - 1];
      HasImageIdsPrefix(b, |b| - 1);
      assert b == b' + [last];
      assert a + b == (a + b') + [last];
      PsTableAppend(a, b');
      PsTableSnoc(a + b', last);
      PsTableSnoc(b', last);
      ConcatAssoc(PsTable(a), PsTable(b'), ContainerRows(last));
    }
  }

  /** `ps` prints one row per port, and one for each container without ports. */
  lemma {:induction false} PsTableLength(containers: seq<Container>)
    requires HasImageIds(containers)
    ensures |PsTable(containers)| == TotalRows(containers)
  {
    if |containers| > 0 {
      PsTableLength(containers[..|containers| - 1]);
      ContainerRowsShape(containers[|containers| - 1]);
    }
  }

  /** Container `k`'s rows sit together, right after the rows of the containers
      before it. */
  lemma PsTableOrder(containers: seq<Container>, k: nat)
    requires HasImageIds(containers) && k < |containers|
    ensures var start := |PsTable(containers[..k])|;
      start + |ContainerRows(containers[k])| <= |PsTable(containers)| &&
      PsTable(containers)[start..start + |ContainerRows(containers[k])|] == ContainerRows(containers[k])
  {
    var before, rest := containers[..k], containers[k + 1..];
    assert containers == before + [containers[k]] + rest;
    PsTableAppend(before, [containers[k]]);
    PsTableAppend(before + [containers[k]], rest);
    assert [containers[k]][..0] == [];
  }

  // The rows as table records

  /** The table's column names, in the order of the row's fields. */
  const ColumnNames: seq<string> := ["ID", "NAMES", "PORTS", "STATUS", "SIZE", "IMAGE", "NETS"]

  /** The fields of a row, in declaration order. */
  function Fields(r: PsRow): (texts: seq<string>)
    ensures |texts| == |ColumnNames|
  {
    [r.id, r.names, r.ports, r.status, r.size, r.image, r.nets]
  }

  /** A row serialized field by field, in declaration order (`rename_all = "UPPERCASE"`):
      the table shows the seven column names, and the row's fields as its cells. */
  function ToRecord(r: PsRow): (record: Table.Record)
    ensures Table.AllSupported(record)
    ensures Table.Columns(record) == ColumnNames
    ensures Table.Cells(record) == Fields(r)
  {
    var record := seq(|ColumnNames|, k requires 0 <= k < |ColumnNames| => (ColumnNames[k], Table.Str(Fields(r)[k])));
    SerializedRow(r, record);
    record
  }

  function ToRecords(rows: seq<PsRow>): (records: seq<Table.Record>)
    ensures |records| == |rows|
    ensures Table.Printable(records)
  {
    seq(|rows|, i requires 0 <= i < |rows| => ToRecord(rows[i]))
  }

  lemma ColumnNamesUpper(k: nat)
    requires k < |ColumnNames|
    ensures ToUpper(ColumnNames[k]) == ColumnNames[k]
  {
    var name := ColumnNames[k];
    assert forall i :: 0 <= i < |name| ==> 'A' <= name[i] <= 'Z';
    ToUpperUnchanged(name);
  }

  /** A row's fields under the column names are read back as those names and fields. */
  lemma SerializedRow(r: PsRow, record: Table.Record)
    requires |record| == |ColumnNames|
    requires forall k :: 0 <= k < |record| ==> record[k] == (ColumnNames[k], Table.Str(Fields(r)[k]))
    ensures Table.AllSupported(record)
    ensures Table.Columns(record) == ColumnNames
    ensures Table.Cells(record) == Fields(r)
  {
    forall k | 0 <= k < |record|
      ensures ToUpper(record[k].0) == ColumnNames[k]
    {
      ColumnNamesUpper(k);
    }
    Table.ColumnsAre(record, ColumnNames);
    Table.CellsAre(record, Fields(r));
  }

  /** `ps`: the rows of the containers rendered as a table, printed with `println!`. */
  method Ps(containers: seq<Container>, spacing: nat) returns (out: string)
    requires HasImageIds(containers)
    ensures out == Table.RenderText(ToRecords(PsTable(containers)), spacing) + "\n"
  {
    var rows := PsRows(containers);
    var table := Table.RenderAnsi(ToRecords(rows), spacing);
    out := table + "\n";
  }
}
