/** The runtime-rule builder: from the learned model of each container
    (network ports, processes, file-system paths) it assembles one runtime
    protection rule per container, with a collection scoped to the image. */
module RuntimeRule {
  import opened Util

  // ---------------------------------------------------------------------
  // Input: one container model as returned by the platform
  // ---------------------------------------------------------------------

  /** An entry of a port list: a port number, or the string "all". */
  datatype PortValue = AllPorts | Port(number: int)

  /** A `{"port": n}` object. */
  datatype PortRecord = PortRecord(port: int)

  /** A `portsData` object: whether it has an "all" key, and its optional
      "ports" list. */
  datatype PortsData = PortsData(hasAll: bool, ports: Option<seq<PortRecord>>)

  /** An element of a `listeningPorts` list; `portsData` may be absent. */
  datatype ListeningEntry = ListeningEntry(portsData: Option<PortsData>)

  /** The `static` part of a network model; a missing `listeningPorts` key
      reads as the empty list. */
  datatype StaticNetwork = StaticNetwork(listeningPorts: seq<ListeningEntry>)

  /** The `behavioral` part; a missing `outboundPorts` or `ports` key reads as
      the empty list, as does a missing `listeningPorts`. */
  datatype BehavioralNetwork =
    BehavioralNetwork(outboundPorts: seq<PortRecord>, listeningPorts: seq<ListeningEntry>)

  datatype NetworkProfile =
    NetworkProfile(staticSection: Option<StaticNetwork>, behavioralSection: Option<BehavioralNetwork>)

  /** A `{"path": p}` object of a process or file-system list. */
  datatype PathRecord = PathRecord(path: string)

  /** A process or file-system model with its optional `behavioral` and
      `static` lists. */
  datatype PathProfile =
    PathProfile(behavioralSection: Option<seq<PathRecord>>, staticSection: Option<seq<PathRecord>>)

  datatype Container =
    Container(image: string, network: NetworkProfile, processes: PathProfile, filesystem: PathProfile)

  // ---------------------------------------------------------------------
  // Output: the `Runtime` object and the rule record `dump_json` builds
  // ---------------------------------------------------------------------

  /** The `ports` dictionary built by `get_all_ports`. */
  datatype Ports = Ports(outboundPorts: seq<PortValue>, listeningPorts: seq<PortValue>)

  /** A `Runtime` object; its fields are set once, at construction. */
  datatype Runtime = Runtime(
    image: string,
    collectionName: string,
    fsAllowlist: seq<string>,
    ruleName: string,
    networkPorts: Ports,
    allowedProcesses: seq<string>,
    modifiedTime: string)

  /** An `{"start": s, "end": e}` port range. */
  datatype PortRange = PortRange(start: int, end: int)

  /** The collection object of a rule (its constant wildcard fields omitted). */
  datatype Collection = Collection(images: seq<string>, name: string, description: string)

  /** The rule record of `dump_json` (its constant effect fields omitted). */
  datatype Rule = Rule(
    name: string,
    collections: seq<Collection>,
    fsAllowedList: seq<string>,
    listeningAllowed: seq<PortRange>,
    outboundAllowed: seq<PortRange>,
    processAllowedList: seq<string>,
    modified: string)

  const NameLimit: nat := 100
  const DescriptionLimit: nat := 100
  const MaxPort: int := 65535
  const RuleNamePrefix: string := "Runtime Rule for "
  const DescriptionPrefix: string := "Automatically created collection used for image "
  const NameSeparator: string := " - "

  // ---------------------------------------------------------------------
  // String helpers: `str.replace` of one character and `split(sep)[0]`
  // ---------------------------------------------------------------------

  /** `s.replace(c, rep)` for a one-character pattern. */
  function ReplaceChar(s: string, c: char, rep: string): (r: string)
    ensures c !in s ==> r == s
    ensures |rep| == 1 ==> (|r| == |s| &&
      forall i :: 0 <= i < |s| ==> r[i] == (if s[i] == c then rep[0] else s[i]))
    decreases |s|
  {
    if s == [] then []
    else
      var rest := ReplaceChar(s[1..], c, rep);
      assert s == [s[0]] + s[1..];
      (if s[0] == c then rep else [s[0]]) + rest
  }

  /** A character that is replaced, or was never there, and is not in the
      replacement, is absent afterwards. */
  lemma {:induction false} ReplaceCharAbsent(s: string, c: char, rep: string, x: char)
    requires x == c || x !in s
    requires x !in rep
    ensures x !in ReplaceChar(s, c, rep)
    decreases |s|
  {
    if s != [] {
      assert s == [s[0]] + s[1..];
      ReplaceCharAbsent(s[1..], c, rep, x);
    }
  }

  lemma ConcatAssociative(x: string, y: string, z: string)
    ensures x + (y + z) == x + y + z
  {
  }

  /** Replacing in `a + b` is replacing in `a` and in `b`. */
  lemma {:induction false} ReplaceCharAppend(a: string, b: string, c: char, rep: string)
    ensures ReplaceChar(a + b, c, rep) == ReplaceChar(a, c, rep) + ReplaceChar(b, c, rep)
    decreases |a|
  {
    if a == [] {
      assert a + b == b;
    } else {
      var head := if a[0] == c then rep else [a[0]];
      assert (a + b)[0] == a[0];
      assert (a + b)[1..] == a[1..] + b;
      assert ReplaceChar(a + b, c, rep) == head + ReplaceChar(a[1..] + b, c, rep);
      ReplaceCharAppend(a[1..], b, c, rep);
      assert ReplaceChar(a, c, rep) == head + ReplaceChar(a[1..], c, rep);
      ConcatAssociative(head, ReplaceChar(a[1..], c, rep), ReplaceChar(b, c, rep));
    }
  }

  /** One character: the replaced one becomes the replacement, any other
      is kept. */
  lemma ReplaceCharSingle(x: char, c: char, rep: string)
    ensures ReplaceChar([x], c, rep) == if x == c then rep else [x]
  {
    assert [x][1..] == [];
  }

  /** The separator " - " starts at index `i` of `s`. */
  predicate SeparatorAt(s: string, i: int) {
    0 <= i && i + 3 <= |s| && s[i] == NameSeparator[0] && s[i + 1] == NameSeparator[1] && s[i + 2] == NameSeparator[2]
  }

  /** `s.split(" - ")[0]`: the text before the first " - ", or all of `s`
      when there is none. */
  function BeforeSeparator(s: string): (r: string)
    ensures r <= s
    ensures r == s || SeparatorAt(s, |r|)
    ensures forall i :: 0 <= i < |r| ==> !SeparatorAt(s, i)
    decreases |s|
  {
    if |s| < |NameSeparator| then s
    else if SeparatorAt(s, 0) then []
    else
      var rest := BeforeSeparator(s[1..]);
      assert forall i :: 1 <= i <= |s| ==> (SeparatorAt(s, i) <==> SeparatorAt(s[1..], i - 1));
      [s[0]] + rest
  }

  // ---------------------------------------------------------------------
  // Names and descriptions
  // ---------------------------------------------------------------------

  /** The collection name before any shortening: "Image " followed by the
      image with each '/' written " - " and each '.' written '_'. */
  function FullCollectionName(image: string): (r: string)
    ensures |r| >= 6 && r[..6] == "Image "
  {
    "Image " + ReplaceChar(ReplaceChar(image, '/', NameSeparator), '.', "_")
  }

  /** What the shortening relies on: the name opens with "Image ", has no
      '/' or '.', and its seventh character is '-' only when the image
      starts with '-'. */
  lemma FullCollectionNameShape(image: string)
    ensures var name := FullCollectionName(image);
      && |name| == 6 + |ReplaceChar(ReplaceChar(image, '/', NameSeparator), '.', "_")|
      && name[..6] == "Image " && name[..5] == "Image"
      && (forall i :: 0 <= i < 5 ==> name[i] != ' ')
      && '/' !in name && '.' !in name
      && (image == [] ==> |name| == 6)
      && (image != [] ==> |name| > 6 && (name[6] == '-' <==> image[0] == '-'))
  {
    var once := ReplaceChar(image, '/', NameSeparator);
    var mapped := ReplaceChar(once, '.', "_");
    ReplaceCharAbsent(image, '/', NameSeparator, '/');
    ReplaceCharAbsent(once, '.', "_", '.');
    ReplaceCharAbsent(once, '.', "_", '/');
    ImagePrefix(mapped);
    if image != [] {
      assert once[0] == (if image[0] == '/' then ' ' else image[0]);
      assert mapped[0] == (if once[0] == '.' then '_' else once[0]);
    }
  }

  /** The fixed opening of a collection name. */
  lemma ImagePrefix(mapped: string)
    requires '/' !in mapped && '.' !in mapped
    ensures var name := "Image " + mapped;
      && name[..6] == "Image " && name[..5] == "Image"
      && (forall i :: 0 <= i < 5 ==> name[i] != ' ')
      && '/' !in name && '.' !in name
      && (mapped != [] ==> name[6] == mapped[0])
  {
  }

  /** `Runtime.normalize_collection_name`. */
  function CollectionName(image: string): (r: string)
    ensures '/' !in r && '.' !in r
    ensures |r| >= 5 && r[..5] == "Image"
    ensures (image == [] || image[0] != '-') ==> |r| >= 6 && r[..6] == "Image "
    ensures |FullCollectionName(image)| <= NameLimit ==> r == FullCollectionName(image)
    ensures |FullCollectionName(image)| > NameLimit ==> r == BeforeSeparator(FullCollectionName(image))
  {
    var name := FullCollectionName(image);
    FullCollectionNameShape(image);
    if |name| > NameLimit then
      var r := BeforeSeparator(name);
      assert (image == [] || image[0] != '-') ==> !SeparatorAt(name, 5);
      r
    else
      name
  }

  /** `Runtime.normalize_description`. */
  function NormalizeDescription(desc: string): (r: string)
    ensures r <= desc && |r| <= DescriptionLimit
    ensures |desc| <= DescriptionLimit ==> r == desc
    ensures |desc| > DescriptionLimit ==> |r| == DescriptionLimit
  {
    if |desc| > DescriptionLimit then desc[..DescriptionLimit] else desc
  }

  /** `normalize_image_name`; `None` is the UnboundLocalError it raises on a
      name without '.'. */
  function NormalizeImageName(name: string): (r: Option<string>)
    ensures r.None? <==> '.' !in name
    ensures r.Some? ==> ('.' !in r.value && |r.value| == |name| &&
      forall i :: 0 <= i < |name| ==> r.value[i] == (if name[i] == '.' then '-' else name[i]))
  {
    if '.' in name then Some(ReplaceChar(name, '.', "-")) else None
  }

  /** The colon insertion of `generate_time`: `s[:-2] + ":" + s[-2:]`. */
  function InsertOffsetColon(formatted: string): (r: string)
    ensures |r| == |formatted| + 1
    ensures var k := if |formatted| >= 2 then |formatted| - 2 else 0;
      r[k] == ':' && r[..k] + r[k + 1..] == formatted
  {
    var k := if |formatted| >= 2 then |formatted| - 2 else 0;
    var r := formatted[..k] + ":" + formatted[k..];
    assert r[..k] == formatted[..k] && r[k + 1..] == formatted[k..];
    r
  }

  /** Applying the description limit twice is applying it once. */
  lemma NormalizeDescriptionIdempotent(desc: string)
    ensures NormalizeDescription(NormalizeDescription(desc)) == NormalizeDescription(desc)
  {
  }

  /** "Image " followed by text without spaces holds no " - ". */
  lemma NoSeparatorAfterPrefix(mapped: string)
    requires ' ' !in mapped
    ensures forall i :: !SeparatorAt("Image " + mapped, i)
  {
    var name := "Image " + mapped;
    forall i | 0 <= i < |name| ensures !SeparatorAt(name, i) {
      if i < 5 {
        assert name[i] != ' ';
      } else if i + 2 < |name| {
        assert name[i + 2] == mapped[i - 4];
        assert mapped[i - 4] in mapped;
      }
    }
  }

  /** `split(" - ")[0]` stops at the first separator. */
  lemma BeforeFirstSeparator(s: string, j: nat)
    requires SeparatorAt(s, j)
    requires forall i :: 0 <= i < j ==> !SeparatorAt(s, i)
    ensures BeforeSeparator(s) == s[..j]
  {
    var r := BeforeSeparator(s);
    assert |r| <= j;
    if r == s {
      assert false;
    }
  }

  /** A string is its part before index `k`, the character there, and the
      part after. */
  lemma SplitAround(s: string, k: nat)
    requires k < |s|
    ensures s == s[..k] + [s[k]] + s[k + 1..]
  {
  }

  /** The first two pieces of `p + (m + x + y)`. */
  lemma PrefixOfNested(p: string, m: string, x: string, y: string)
    ensures (p + (m + x + y))[..|p| + |m|] == p + m
  {
  }

  /** Replacing in three consecutive pieces. */
  lemma ReplaceCharThree(a: string, m: string, b: string, c: char, rep: string)
    ensures ReplaceChar(a + m + b, c, rep) == ReplaceChar(a, c, rep) + ReplaceChar(m, c, rep) + ReplaceChar(b, c, rep)
  {
    ReplaceCharAppend(a + m, b, c, rep);
    ReplaceCharAppend(a, m, c, rep);
  }

  /** Replacing '.' leaves the separator alone. */
  lemma DotsKeepSeparator()
    ensures ReplaceChar(NameSeparator, '.', "_") == NameSeparator
  {
  }

  /** Writing '/' as " - " in an image whose first '/' is at `k`. */
  lemma SlashesToSeparators(image: string, k: nat)
    requires k < |image| && image[k] == '/' && '/' !in image[..k]
    ensures ReplaceChar(image, '/', NameSeparator) ==
      image[..k] + NameSeparator + ReplaceChar(image[k + 1..], '/', NameSeparator)
  {
    SplitAround(image, k);
    ReplaceCharThree(image[..k], ['/'], image[k + 1..], '/', NameSeparator);
    ReplaceCharSingle('/', '/', NameSeparator);
  }

  /** The mapped image of an image whose first '/' is at `k`: the first
      path segment, then the separator, then the rest. */
  lemma MappedSegments(image: string, k: nat)
    requires k < |image| && image[k] == '/' && '/' !in image[..k]
    ensures ReplaceChar(ReplaceChar(image, '/', NameSeparator), '.', "_") ==
      ReplaceChar(image[..k], '.', "_") + NameSeparator
      + ReplaceChar(ReplaceChar(image[k + 1..], '/', NameSeparator), '.', "_")
  {
    SlashesToSeparators(image, k);
    ReplaceCharThree(image[..k], NameSeparator, ReplaceChar(image[k + 1..], '/', NameSeparator), '.', "_");
    DotsKeepSeparator();
  }

  /** With a first segment free of spaces, other than "-", the first " - "
      of the name is the one written for the first '/'. */
  lemma FirstSeparatorAfterSegment(mapped: string, tail: string)
    requires ' ' !in mapped && mapped != "-"
    ensures var name := "Image " + (mapped + NameSeparator + tail);
      && SeparatorAt(name, 6 + |mapped|)
      && forall i :: 0 <= i < 6 + |mapped| ==> !SeparatorAt(name, i)
  {
    var name := "Image " + (mapped + NameSeparator + tail);
    assert forall i :: 6 <= i < 6 + |mapped| ==> name[i] == mapped[i - 6];
    assert name[6 + |mapped|..6 + |mapped| + 3] == NameSeparator;
    forall i | 0 <= i < 6 + |mapped| ensures !SeparatorAt(name, i) {
      if i < 5 {
        assert name[i] != ' ';
      } else if i == 5 {
        if |mapped| >= 2 {
          assert mapped[1] in mapped;
        }
      } else {
        assert mapped[i - 6] in mapped;
      }
    }
  }

  /** A one-character segment other than "-" maps to one other than "-". */
  lemma MappedSegmentNotDash(first: string)
    requires first != "-"
    ensures ReplaceChar(first, '.', "_") != "-"
  {
    var mapped := ReplaceChar(first, '.', "_");
    if |first| == 1 {
      assert first == [first[0]];
      assert mapped[0] == (if first[0] == '.' then '_' else first[0]);
    }
  }

  /** Why long names are shortened: when the full name exceeds 100
      characters, the name kept is "Image " and the image's first path
      segment, provided that segment has no space and is not "-". */
  lemma CollectionNameKeepsFirstSegment(image: string, k: nat)
    requires k < |image| && image[k] == '/' && '/' !in image[..k]
    requires ' ' !in image[..k] && image[..k] != "-"
    requires |FullCollectionName(image)| > NameLimit
    ensures CollectionName(image) == "Image " + ReplaceChar(image[..k], '.', "_")
  {
    var mapped := ReplaceChar(image[..k], '.', "_");
    var tail := ReplaceChar(ReplaceChar(image[k + 1..], '/', NameSeparator), '.', "_");
    MappedSegments(image, k);
    ReplaceCharAbsent(image[..k], '.', "_", ' ');
    MappedSegmentNotDash(image[..k]);
    FirstSeparatorAfterSegment(mapped, tail);
    var name := FullCollectionName(image);
    assert name == "Image " + (mapped + NameSeparator + tail);
    BeforeFirstSeparator(name, 6 + |mapped|);
    PrefixOfNested("Image ", mapped, NameSeparator, tail);
  }

  /** A long name whose image opens with "-/" or "- " is cut to the bare
      word "Image": the first " - " is the one after "Image". */
  lemma CollectionNameOfDashSegment(image: string)
    requires |image| >= 2 && image[0] == '-' && (image[1] == '/' || image[1] == ' ')
    requires |FullCollectionName(image)| > NameLimit
    ensures CollectionName(image) == "Image"
  {
    var once := ReplaceChar(image, '/', NameSeparator);
    var mapped := ReplaceChar(once, '.', "_");
    var rest := ReplaceChar(image[1..], '/', NameSeparator);
    assert image[1..][0] == image[1];
    assert once == ['-'] + rest;
    assert rest[0] == ' ';
    assert once[0] == '-' && once[1] == ' ';
    assert once[1..][0] == ' ';
    assert mapped[0] == '-' && mapped[1] == ' ';
    var name := FullCollectionName(image);
    FullCollectionNameShape(image);
    assert name[5] == ' ' && name[6] == '-' && name[7] == ' ';
    BeforeFirstSeparator(name, 5);
  }

  /** The 100-character limit is not enforced: an image without '/' or ' '
      keeps its whole name, however long. */
  lemma CollectionNameKeepsUnseparatedImage(image: string)
    requires '/' !in image && ' ' !in image
    ensures CollectionName(image) == "Image " + ReplaceChar(image, '.', "_")
    ensures |CollectionName(image)| == 6 + |image|
  {
    var mapped := ReplaceChar(image, '.', "_");
    ReplaceCharAbsent(image, '.', "_", ' ');
    NoSeparatorAfterPrefix(mapped);
  }



  // ---------------------------------------------------------------------
  // Port lists
  // ---------------------------------------------------------------------

  /** The `port` values of a list of port objects, in order. */
  function PortNumbers(records: seq<PortRecord>): seq<PortValue> {
    seq(|records|, i requires 0 <= i < |records| => Port(records[i].port))
  }

  /** `process_ports_data(ports_data, "listeningPorts")` applied to the
      listening list gathered so far. */
  function MergePortsData(listening: seq<PortValue>, data: PortsData): (r: seq<PortValue>)
    ensures listening <= r
    ensures forall x :: x in listening ==> x !in r[|listening|..]
    ensures NoDuplicates(listening) ==> NoDuplicates(r)
  {
    if data.hasAll && AllPorts !in listening then listening + [AllPorts]
    else if data.ports.Some? then AddUnseen(listening, PortNumbers(data.ports.value))
    else listening
  }

  /** Two extensions that each add only new elements add only new elements. */
  lemma FreshTwice(a: seq<PortValue>, b: seq<PortValue>, c: seq<PortValue>)
    requires a <= b <= c
    requires forall x :: x in a ==> x !in b[|a|..]
    requires forall x :: x in b ==> x !in c[|b|..]
    ensures forall x :: x in a ==> x !in c[|a|..]
  {
    assert c[|a|..] == b[|a|..] + c[|b|..];
    assert forall x :: x in a ==> x in b;
  }

  /** The `for k in listening_ports: if "portsData" in k: ...` loop. */
  function MergeEntries(listening: seq<PortValue>, entries: seq<ListeningEntry>): (r: seq<PortValue>)
    ensures listening <= r
    ensures forall x :: x in listening ==> x !in r[|listening|..]
    ensures NoDuplicates(listening) ==> NoDuplicates(r)
    decreases |entries|
  {
    if entries == [] then listening
    else
      var next := if entries[0].portsData.Some? then MergePortsData(listening, entries[0].portsData.value) else listening;
      var r := MergeEntries(next, entries[1..]);
      FreshTwice(listening, next, r);
      r
  }

  /** Scanning `a + b` is scanning `a`, then `b`. */
  lemma {:induction false} MergeEntriesAppend(listening: seq<PortValue>, a: seq<ListeningEntry>, b: seq<ListeningEntry>)
    ensures MergeEntries(listening, a + b) == MergeEntries(MergeEntries(listening, a), b)
    decreases |a|
  {
    if a == [] {
      assert a + b == b;
    } else {
      var next := if a[0].portsData.Some? then MergePortsData(listening, a[0].portsData.value) else listening;
      assert (a + b)[0] == a[0];
      assert (a + b)[1..] == a[1..] + b;
      MergeEntriesAppend(next, a[1..], b);
    }
  }

  function StaticListening(net: NetworkProfile): seq<ListeningEntry> {
    if net.staticSection.Some? then net.staticSection.value.listeningPorts else []
  }

  function BehavioralListening(net: NetworkProfile): seq<ListeningEntry> {
    if net.behavioralSection.Some? then net.behavioralSection.value.listeningPorts else []
  }

  function BehavioralOutbound(net: NetworkProfile): seq<PortRecord> {
    if net.behavioralSection.Some? then net.behavioralSection.value.outboundPorts else []
  }

  /** What `get_all_ports` returns. */
  function PortsOf(net: NetworkProfile): (r: Ports)
    ensures NoDuplicates(r.listeningPorts)
    ensures MergeEntries([], StaticListening(net)) <= r.listeningPorts
    ensures |r.outboundPorts| == |BehavioralOutbound(net)|
  {
    Ports(PortNumbers(BehavioralOutbound(net)),
          MergeEntries(MergeEntries([], StaticListening(net)), BehavioralListening(net)))
  }

  /** An entry whose `portsData` has an "all" key. */
  predicate DeclaresAll(e: ListeningEntry) {
    e.portsData.Some? && e.portsData.value.hasAll
  }

  /** An entry whose `portsData` lists port `n`. */
  predicate DeclaresPort(e: ListeningEntry, n: int) {
    e.portsData.Some? && e.portsData.value.ports.Some? && Port(n) in PortNumbers(e.portsData.value.ports.value)
  }

  /** "all" ends up in the listening list exactly when some entry has an
      "all" key; a port ends up there only if some entry lists it, and always
      when an entry without an "all" key lists it. */
  lemma {:induction false} MergeEntriesMembers(listening: seq<PortValue>, entries: seq<ListeningEntry>, n: int)
    ensures AllPorts in MergeEntries(listening, entries) <==>
      AllPorts in listening || exists i :: 0 <= i < |entries| && DeclaresAll(entries[i])
    ensures Port(n) in MergeEntries(listening, entries) ==>
      Port(n) in listening || exists i :: 0 <= i < |entries| && DeclaresPort(entries[i], n)
    ensures (exists i :: 0 <= i < |entries| && !DeclaresAll(entries[i]) && DeclaresPort(entries[i], n)) ==>
      Port(n) in MergeEntries(listening, entries)
    decreases |entries|
  {
    if entries != [] {
      var e, rest := entries[0], entries[1..];
      var next := if e.portsData.Some? then MergePortsData(listening, e.portsData.value) else listening;
      assert MergeEntries(listening, entries) == MergeEntries(next, rest);
      MergeEntriesMembers(next, rest, n);
      if e.portsData.Some? {
        MergePortsDataMembers(listening, e.portsData.value, n);
      }
      assert forall i :: 1 <= i < |entries| ==> entries[i] == rest[i - 1];
    }
  }

  /** One `portsData` object: "all" is added exactly when it has an "all"
      key, and a port only when it lists it. */
  lemma MergePortsDataMembers(listening: seq<PortValue>, data: PortsData, n: int)
    ensures AllPorts in MergePortsData(listening, data) <==> AllPorts in listening || data.hasAll
    ensures Port(n) in MergePortsData(listening, data) ==>
      Port(n) in listening || (data.ports.Some? && Port(n) in PortNumbers(data.ports.value))
    ensures !data.hasAll && data.ports.Some? && Port(n) in PortNumbers(data.ports.value) ==>
      Port(n) in MergePortsData(listening, data)
  {
    if data.ports.Some? {
      assert AllPorts !in PortNumbers(data.ports.value);
    }
  }

  /** Membership of the listening list `get_all_ports` returns, in terms of
      the static and behavioral entries it reads. */
  lemma ListeningPortsMembers(net: NetworkProfile, n: int)
    ensures var all := StaticListening(net) + BehavioralListening(net);
      && (AllPorts in PortsOf(net).listeningPorts <==> exists i :: 0 <= i < |all| && DeclaresAll(all[i]))
      && (Port(n) in PortsOf(net).listeningPorts ==> exists i :: 0 <= i < |all| && DeclaresPort(all[i], n))
      && ((exists i :: 0 <= i < |all| && !DeclaresAll(all[i]) && DeclaresPort(all[i], n)) ==>
            Port(n) in PortsOf(net).listeningPorts)
  {
    var st, bh := StaticListening(net), BehavioralListening(net);
    MergeEntriesAppend([], st, bh);
    MergeEntriesMembers([], st + bh, n);
  }

  /** The outbound list is the behavioral outbound port values, in order and
      not de-duplicated; the static section never adds to it. */
  lemma OutboundPortsAreBehavioral(net: NetworkProfile)
    ensures var out := PortsOf(net).outboundPorts;
      |out| == |BehavioralOutbound(net)| &&
      forall i :: 0 <= i < |out| ==> out[i] == Port(BehavioralOutbound(net)[i].port)
  {
  }

  /** `process_ports_data` for the listening list. */
  method ProcessPortsData(listening: seq<PortValue>, data: PortsData) returns (r: seq<PortValue>)
    ensures r == MergePortsData(listening, data)
  {
    if data.hasAll && AllPorts !in listening {
      r := listening + [AllPorts];
    } else if data.ports.Some? {
      r := AppendUnseen(listening, PortNumbers(data.ports.value));
    } else {
      r := listening;
    }
  }

  /** The loop over the entries of a `listeningPorts` list. */
  method ProcessListeningEntries(listening: seq<PortValue>, entries: seq<ListeningEntry>) returns (r: seq<PortValue>)
    ensures r == MergeEntries(listening, entries)
  {
    r := listening;
    for i := 0 to |entries|
      invariant MergeEntries(r, entries[i..]) == MergeEntries(listening, entries)
    {
      assert entries[i..][1..] == entries[i + 1..];
      if entries[i].portsData.Some? {
        r := ProcessPortsData(r, entries[i].portsData.value);
      }
    }
    assert entries[|entries|..] == [];
  }

  /** `get_all_ports`: static listening entries first, then the behavioral
      outbound ports, then the behavioral listening entries. */
  method GetAllPorts(net: NetworkProfile) returns (ports: Ports)
    ensures ports == PortsOf(net)
  {
    var outbound: seq<PortValue> := [];
    var listening: seq<PortValue> := [];
    if net.staticSection.Some? {
      listening := ProcessListeningEntries(listening, net.staticSection.value.listeningPorts);
    }
    if net.behavioralSection.Some? {
      var behavioral := net.behavioralSection.value;
      outbound := outbound + PortNumbers(behavioral.outboundPorts);
      listening := ProcessListeningEntries(listening, behavioral.listeningPorts);
    }
    ports := Ports(outbound, listening);
  }

  /** A port range for one list entry. */
  function RangeOf(p: PortValue): PortRange {
    match p
    case AllPorts => PortRange(1, MaxPort)
    case Port(n) => PortRange(n, n)
  }

  /** What `Runtime.expand_port` returns. */
  function ExpandedPorts(ports: seq<PortValue>): (r: seq<PortRange>)
    ensures AllPorts in ports ==> |r| == 1
    ensures AllPorts !in ports ==> |r| == |ports|
  {
    if AllPorts in ports then [RangeOf(AllPorts)]
    else seq(|ports|, i requires 0 <= i < |ports| => RangeOf(ports[i]))
  }

  /** Some range of `ranges` contains port `n`. */
  predicate Allows(ranges: seq<PortRange>, n: int) {
    exists i :: 0 <= i < |ranges| && ranges[i].start <= n <= ranges[i].end
  }

  /** The ranges allow exactly the listed ports, or every port 1..65535
      when "all" is listed; with "all" absent, range `i` is port `i`. */
  lemma ExpandedPortsAllow(ports: seq<PortValue>, n: int)
    ensures Allows(ExpandedPorts(ports), n) <==>
      if AllPorts in ports then 1 <= n <= MaxPort else Port(n) in ports
    ensures AllPorts !in ports ==> forall i :: 0 <= i < |ports| ==>
      ExpandedPorts(ports)[i] == PortRange(ports[i].number, ports[i].number)
  {
    var r := ExpandedPorts(ports);
    if AllPorts !in ports {
      if Port(n) in ports {
        var i :| 0 <= i < |ports| && ports[i] == Port(n);
        assert r[i].start <= n <= r[i].end;
      }
      if Allows(r, n) {
        var i :| 0 <= i < |r| && r[i].start <= n <= r[i].end;
        assert ports[i] == Port(n);
      }
    } else {
      if 1 <= n <= MaxPort {
        assert r[0].start <= n <= r[0].end;
      }
    }
  }

  /** `Runtime.expand_port`, as the loop it is. */
  method ExpandPort(ports: seq<PortValue>) returns (ranges: seq<PortRange>)
    ensures ranges == ExpandedPorts(ports)
  {
    ranges := [];
    if AllPorts in ports {
      ranges := ranges + [PortRange(1, MaxPort)];
    } else {
      for i := 0 to |ports|
        invariant |ranges| == i
        invariant forall k :: 0 <= k < i ==> ranges[k] == RangeOf(ports[k])
      {
        ranges := ranges + [PortRange(ports[i].number, ports[i].number)];
      }
    }
  }

  // ---------------------------------------------------------------------
  // Process and file-system allow-lists
  // ---------------------------------------------------------------------

  function PathsOf(records: seq<PathRecord>): seq<string> {
    seq(|records|, i requires 0 <= i < |records| => records[i].path)
  }

  function SectionPaths(section: Option<seq<PathRecord>>): seq<string> {
    if section.Some? then PathsOf(section.value) else []
  }

  /** What `get_allowed_processes` and `get_fs_allowed_paths` return: the
      behavioral paths, then the static ones, each appended unless present. */
  function AllowedPaths(p: PathProfile): (r: seq<string>)
    ensures NoDuplicates(r)
    ensures forall x :: x in r <==> x in SectionPaths(p.behavioralSection) || x in SectionPaths(p.staticSection)
  {
    AddUnseen(AddUnseen([], SectionPaths(p.behavioralSection)), SectionPaths(p.staticSection))
  }

  /** The allow-list keeps the first occurrence of each path, behavioral
      entries scanned before static ones. */
  lemma AllowedPathsFirstOccurrences(p: PathProfile)
    ensures AllowedPaths(p) == FirstOccurrences(SectionPaths(p.behavioralSection) + SectionPaths(p.staticSection))
  {
    var b, s := SectionPaths(p.behavioralSection), SectionPaths(p.staticSection);
    AddUnseenAppend([], b, s);
    DedupIsFirstOccurrences(b + s);
  }

  /** `get_allowed_processes`. */
  method GetAllowedProcesses(processes: PathProfile) returns (allowed: seq<string>)
    ensures allowed == AllowedPaths(processes)
  {
    allowed := [];
    if processes.behavioralSection.Some? {
      allowed := AppendUnseen(allowed, PathsOf(processes.behavioralSection.value));
    }
    if processes.staticSection.Some? {
      allowed := AppendUnseen(allowed, PathsOf(processes.staticSection.value));
    }
  }

  /** `get_fs_allowed_paths`. */
  method GetFsAllowedPaths(paths: PathProfile) returns (allowed: seq<string>)
    ensures allowed == AllowedPaths(paths)
  {
    allowed := [];
    if paths.behavioralSection.Some? {
      allowed := AppendUnseen(allowed, PathsOf(paths.behavioralSection.value));
    }
    if paths.staticSection.Some? {
      allowed := AppendUnseen(allowed, PathsOf(paths.staticSection.value));
    }
  }

  // ---------------------------------------------------------------------
  // Assembling the rules
  // ---------------------------------------------------------------------

  /** The `Runtime` object built for one container, given the text the clock
      formats for it; `None` when `normalize_image_name` raises. */
  function RuntimeFor(c: Container, clockText: string): (r: Option<Runtime>)
    ensures r.None? <==> '.' !in c.image
    ensures r.Some? ==> r.value.image == c.image && r.value.modifiedTime == InsertOffsetColon(clockText)
  {
    if '.' in c.image then Some(RuntimeOf(c, clockText)) else None
  }

  /** The `Runtime` of a container whose image name normalizes. */
  function RuntimeOf(c: Container, clockText: string): (r: Runtime)
    requires '.' in c.image
    ensures r.image == c.image
    ensures NoDuplicates(r.allowedProcesses) && NoDuplicates(r.fsAllowlist)
    ensures NoDuplicates(r.networkPorts.listeningPorts)
  {
    Runtime(c.image, "", AllowedPaths(c.filesystem), RuleNamePrefix + NormalizeImageName(c.image).value,
            PortsOf(c.network), AllowedPaths(c.processes), InsertOffsetColon(clockText))
  }

  /** `Runtime.dump_json`, restricted to its non-constant fields. */
  function DumpJson(rt: Runtime): (r: Rule)
    ensures |r.collections| == 1 && r.collections[0].images == [rt.image]
    ensures '/' !in r.collections[0].name && '.' !in r.collections[0].name
    ensures |r.collections[0].description| <= DescriptionLimit
  {
    Rule(rt.ruleName,
         [Collection([rt.image], CollectionName(rt.image), NormalizeDescription(DescriptionPrefix + rt.image))],
         rt.fsAllowlist,
         ExpandedPorts(rt.networkPorts.listeningPorts),
         ExpandedPorts(rt.networkPorts.outboundPorts),
         rt.allowedProcesses,
         rt.modifiedTime)
  }

  /** The body of the loop of `add_runtime_rule` for one container. */
  method BuildRuntime(container: Container, clockText: string) returns (runtime: Option<Runtime>)
    ensures runtime == RuntimeFor(container, clockText)
  {
    var ports := GetAllPorts(container.network);
    var processes := GetAllowedProcesses(container.processes);
    var fsAllowList := GetFsAllowedPaths(container.filesystem);
    var normalized := NormalizeImageName(container.image);
    if normalized.None? {
      return None;
    }
    runtime := Some(Runtime(container.image, "", fsAllowList, RuleNamePrefix + normalized.value,
                            ports, processes, InsertOffsetColon(clockText)));
  }

  /** The `Runtime` built for the i-th container, `clock(i)` being the time
      text formatted for it. */
  function RuntimeAt(containers: seq<Container>, clock: nat -> string): nat -> Option<Runtime> {
    (i: nat) => if i < |containers| then RuntimeFor(containers[i], clock(i)) else None
  }

  /** One turn of the loop of `add_runtime_rule`: the `Runtime` of the i-th
      container appended to those of the containers before it. */
  method AppendRuntime(containers: seq<Container>, clock: nat -> string, i: nat, runtimes: seq<Runtime>)
    returns (next: Option<seq<Runtime>>)
    requires i < |containers|
    requires CollectSome(i, RuntimeAt(containers, clock)) == Some(runtimes)
    ensures next == CollectSome(i + 1, RuntimeAt(containers, clock))
    ensures next.None? ==> CollectSome(|containers|, RuntimeAt(containers, clock)).None?
  {
    var runtime := BuildRuntime(containers[i], clock(i));
    assert RuntimeAt(containers, clock)(i) == runtime;
    if runtime.None? {
      CollectSomeFailureIsFinal(i + 1, |containers|, RuntimeAt(containers, clock));
      return None;
    }
    next := Some(runtimes + [runtime.value]);
  }

  /** `add_runtime_rule` after the file is read: the loop that builds one
      `Runtime` per container and aborts at the first failure. */
  method AddRuntimeRule(containers: seq<Container>, clock: nat -> string) returns (all: Option<seq<Runtime>>)
    ensures all == CollectSome(|containers|, RuntimeAt(containers, clock))
  {
    var runtimes: seq<Runtime> := [];
    for i := 0 to |containers|
      invariant CollectSome(i, RuntimeAt(containers, clock)) == Some(runtimes)
    {
      var next := AppendRuntime(containers, clock, i, runtimes);
      if next.None? {
        return None;
      }
      runtimes := next.value;
    }
    all := Some(runtimes);
  }

  /** The whole call fails exactly when some image has no '.'; otherwise
      the i-th `Runtime` is the one built for the i-th container. */
  lemma AddRuntimeRuleOutcome(containers: seq<Container>, clock: nat -> string)
    ensures var all := CollectSome(|containers|, RuntimeAt(containers, clock));
      && (all.None? <==> exists i :: 0 <= i < |containers| && '.' !in containers[i].image)
      && (all.Some? ==> (|all.value| == |containers| &&
            forall i :: 0 <= i < |containers| ==> RuntimeFor(containers[i], clock(i)) == Some(all.value[i])))
  {
    var at := RuntimeAt(containers, clock);
    CollectSomeMeaning(|containers|, at);
    assert forall i :: 0 <= i < |containers| ==> at(i) == RuntimeFor(containers[i], clock(i));
  }

  /** What the rule of a container says: its name, its collection, the
      port ranges derived from the container's ports (one per port, in
      order, admitting exactly those ports), its allow-lists and the time
      it was modified. */
  lemma RuleForContainer(c: Container, clockText: string, n: int)
    requires '.' in c.image
    ensures var rule := DumpJson(RuntimeFor(c, clockText).value);
      var ports := PortsOf(c.network);
      && rule.name == RuleNamePrefix + NormalizeImageName(c.image).value
      && '.' !in rule.name[|RuleNamePrefix|..]
      && |rule.collections| == 1
      && rule.collections[0].images == [c.image]
      && rule.collections[0].name == CollectionName(c.image)
      && rule.collections[0].description == NormalizeDescription(DescriptionPrefix + c.image)
      && rule.collections[0].description <= DescriptionPrefix + c.image
      && |rule.collections[0].description| <= DescriptionLimit
      && rule.listeningAllowed == ExpandedPorts(ports.listeningPorts)
      && rule.outboundAllowed == ExpandedPorts(ports.outboundPorts)
      && (Allows(rule.listeningAllowed, n) <==>
            if AllPorts in ports.listeningPorts then 1 <= n <= MaxPort else Port(n) in ports.listeningPorts)
      && (Allows(rule.outboundAllowed, n) <==>
            if AllPorts in ports.outboundPorts then 1 <= n <= MaxPort else Port(n) in ports.outboundPorts)
      && rule.processAllowedList == AllowedPaths(c.processes)
      && rule.fsAllowedList == AllowedPaths(c.filesystem)
      && rule.modified == InsertOffsetColon(clockText)
  {
    var ports := PortsOf(c.network);
    ExpandedPortsAllow(ports.listeningPorts, n);
    ExpandedPortsAllow(ports.outboundPorts, n);
    var rule := DumpJson(RuntimeFor(c, clockText).value);
    assert rule.name[|RuleNamePrefix|..] == NormalizeImageName(c.image).value;
  }
}
