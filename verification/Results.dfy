/**
 The exchange of results (iperf_api.c, iperf_add_stream, send_results and get_results).  Integers and strings come out
 of it as they are; CPU use and jitter need not be integers, and come out as they are shown.
 */
module Results {
  import opened CInt
  import opened ControlFrame
  import opened CText
  import opened Json
  import opened Numerals
  import opened ObjectItems
  import opened Parameters
  import opened Wrappers

  /** What a stream's struct and its result hold of the exchange. */
  datatype Stream = Stream(
    id: int,
    bytesSent: int,
    bytesSentOmit: int,
    bytesReceived: int,
    retransmits: int,
    jitter: real,
    errors: int,
    packets: int)

  /** What a server has to show of a test: one tree, or lines of text. */
  datatype Output = JsonOutput(top: Json) | TextOutput(lines: seq<string>)

  datatype Side = Side(
    sender: bool,
    hasRetransmits: int,
    cpu: (real, real, real),
    remoteCpu: (real, real, real),
    streams: seq<Stream>,
    server: bool,
    wantsOutput: bool,              // get_server_output
    output: Output,
    serverJson: Option<Json>,       // what a client got of the server's output
    serverText: Option<string>)

  // ---- stream numbers ----

  /** The id of the stream that is added behind n others: 1, 3, 4, 5 and so on. */
  function NextId(n: nat): int {
    if n == 0 then 1 else n + 2
  }

  /** Streams that iperf_add_stream has numbered. */
  ghost predicate Numbered(streams: seq<Stream>) {
    forall k :: 0 <= k < |streams| ==> streams[k].id == NextId(k)
  }

  /** The place of the first stream with an id, or the number of streams. */
  function IndexOf(streams: seq<Stream>, id: int): (k: nat)
    ensures k <= |streams|
    ensures k < |streams| ==> streams[k].id == id
    ensures forall i :: 0 <= i < k ==> streams[i].id != id
  {
    if streams == [] || streams[0].id == id then 0 else 1 + IndexOf(streams[1..], id)
  }

  /** A number finds its stream, and the streams of two sides with as many streams have the same numbers. */
  lemma NumbersMatch(a: seq<Stream>, b: seq<Stream>, k: nat)
    requires Numbered(a) && Numbered(b) && |a| == |b| && k < |a|
    ensures a[k].id == b[k].id == (if k == 0 then 1 else k + 2) && IndexOf(b, a[k].id) == k
  {
    var i := IndexOf(b, a[k].id);
    assert i < |b| ==> b[i].id == NextId(i);
  }

  // ---- what is sent ----

  /** bytes_transferred, as a sender and as a receiver counts it. */
  function Transferred(side: Side, s: Stream): int {
    if side.sender then s.bytesSent - s.bytesSentOmit else s.bytesReceived
  }

  function StreamTree(side: Side, s: Stream): Json {
    Object([
      Member("id", Int(s.id)),
      Member("bytes", Int(Transferred(side, s))),
      Member("retransmits", Int(if side.sender && side.hasRetransmits != 0 then s.retransmits else -1)),
      Member("jitter", Number(s.jitter)),
      Member("errors", Int(s.errors)),
      Member("packets", Int(s.packets))])
  }

  function StreamTrees(side: Side, k: nat): seq<Json>
    requires k <= |side.streams|
  {
    if k == 0 then [] else StreamTrees(side, k - 1) + [StreamTree(side, side.streams[k - 1])]
  }

  function Concat(lines: seq<string>): string {
    if lines == [] then "" else lines[0] + Concat(lines[1..])
  }

  /** The server's output, if the client asked for it. */
  function OutputMember(side: Side): seq<Member> {
    if !side.server || !side.wantsOutput then []
    else
      match side.output
      case JsonOutput(top) => [Member("server_output_json", top)]
      case TextOutput(lines) => [Member("server_output_text", String(Concat(lines)))]
  }

  function HeadMembers(side: Side): seq<Member> {
    [Member("cpu_util_total", Number(side.cpu.0)),
     Member("cpu_util_user", Number(side.cpu.1)),
     Member("cpu_util_system", Number(side.cpu.2)),
     Member("sender_has_retransmits", Int(if side.sender then side.hasRetransmits else -1))]
  }

  function ResultTree(side: Side): Json {
    Object(HeadMembers(side) + OutputMember(side) + [Member("streams", Array(StreamTrees(side, |side.streams|)))])
  }

  // ---- what is made of it ----

  function Children(j: Json): seq<Json> {
    match j
    case Array(items) => items
    case Object(members) => seq(|members|, i requires 0 <= i < |members| => members[i].value)
    case _ => []
  }

  function ValueDouble(j: Json): real {
    if j.Number? then j.value else 0.0
  }

  predicate HasStreamFields(j: Json) {
    && Lookup(j, "id").Some? && Lookup(j, "bytes").Some? && Lookup(j, "retransmits").Some?
    && Lookup(j, "jitter").Some? && Lookup(j, "errors").Some? && Lookup(j, "packets").Some?
  }

  function Integer(j: Json, name: string): int {
    if Lookup(j, name).Some? then ValueInt(Lookup(j, name).value) else 0
  }

  function Updated(sender: bool, s: Stream, j: Json): Stream
    requires HasStreamFields(j)
  {
    if sender then
      s.(jitter := ValueDouble(Lookup(j, "jitter").value), errors := ToInt32(Integer(j, "errors")),
         packets := ToInt32(Integer(j, "packets")), bytesReceived := ToUint64(Integer(j, "bytes")))
    else
      s.(bytesSent := ToUint64(Integer(j, "bytes")), retransmits := ToInt32(Integer(j, "retransmits")))
  }

  /** One element of "streams": it is ignored, but for the return value, if a field is missing or the id unknown. */
  function TakeStream(sender: bool, streams: seq<Stream>, j: Json): (r: (seq<Stream>, bool))
    ensures |r.0| == |streams|
  {
    if !HasStreamFields(j) then (streams, false)
    else
      var k := IndexOf(streams, ToInt32(Integer(j, "id")));
      if k == |streams| then (streams, false) else (streams[k := Updated(sender, streams[k], j)], true)
  }

  /** The first n elements. */
  function TakeStreams(sender: bool, streams: seq<Stream>, items: seq<Json>, n: nat): (r: (seq<Stream>, bool))
    requires n <= |items|
    ensures |r.0| == |streams|
  {
    if n == 0 then (streams, true)
    else
      var (before, ok) := TakeStreams(sender, streams, items, n - 1);
      var (after, taken) := TakeStream(sender, before, items[n - 1]);
      (after, ok && taken)
  }

  /** The elements of "streams", if it is there. */
  function ListTaken(sender: bool, streams: seq<Stream>, j: Json): (seq<Stream>, bool) {
    if Lookup(j, "streams").None? then (streams, false)
    else
      var items := Children(Lookup(j, "streams").value);
      TakeStreams(sender, streams, items, |items|)
  }

  /** A client that asked for the server's output keeps it, as a tree if there is one and otherwise as a text. */
  function OutputTaken(side: Side, j: Json): Side {
    if side.server || !side.wantsOutput then side
    else if Lookup(j, "server_output_json").Some? then side.(serverJson := Lookup(j, "server_output_json"))
    else if Lookup(j, "server_output_text").Some? then
      side.(serverText := TextOf(Lookup(j, "server_output_text").value))
    else side
  }

  /** valuestring */
  function TextOf(j: Json): Option<string> {
    if j.String? then Some(j.str) else None
  }

  /** The streams, and behind them the output. */
  function RestTaken(side: Side, j: Json): (Side, bool) {
    var (streams, ok) := ListTaken(side.sender, side.streams, j);
    var side' := side.(streams := streams);
    (if Lookup(j, "streams").Some? then OutputTaken(side', j) else side', ok)
  }

  /** get_results on the tree that came, with false for its return value -1. */
  function Taken(side: Side, j: Json): (Side, bool) {
    if Lookup(j, "cpu_util_total").None? || Lookup(j, "cpu_util_user").None? ||
       Lookup(j, "cpu_util_system").None? || Lookup(j, "sender_has_retransmits").None? then (side, false)
    else
      RestTaken(
        side.(remoteCpu := (ValueDouble(Lookup(j, "cpu_util_total").value),
                            ValueDouble(Lookup(j, "cpu_util_user").value),
                            ValueDouble(Lookup(j, "cpu_util_system").value)),
              hasRetransmits := if side.sender then side.hasRetransmits
                                else ToInt32(Integer(j, "sender_has_retransmits"))),
        j)
  }

  // ---- any tree ----

  /** An element with all its fields, for the stream k. */
  predicate IsFor(streams: seq<Stream>, j: Json, k: nat) {
    HasStreamFields(j) && IndexOf(streams, ToInt32(Integer(j, "id"))) == k
  }

  lemma {:induction false} SameIndex(a: seq<Stream>, b: seq<Stream>, id: int)
    requires |a| == |b| && forall i :: 0 <= i < |a| ==> a[i].id == b[i].id
    ensures IndexOf(a, id) == IndexOf(b, id)
  {
    if a != [] {
      SameIndex(a[1..], b[1..], id);
    }
  }

  /** It has them for a stream that there is. */
  predicate IsKnown(streams: seq<Stream>, j: Json) {
    HasStreamFields(j) && IndexOf(streams, ToInt32(Integer(j, "id"))) < |streams|
  }

  lemma OneTaken(sender: bool, streams: seq<Stream>, before: seq<Stream>, j: Json)
    requires |before| == |streams| && forall i :: 0 <= i < |streams| ==> before[i].id == streams[i].id
    ensures var (r, ok) := TakeStream(sender, before, j);
            && (forall i :: 0 <= i < |streams| ==> r[i].id == streams[i].id)
            && (ok <==> IsKnown(streams, j))
            && (forall k: nat :: k < |streams| ==>
                  r[k] == if IsFor(streams, j, k) then Updated(sender, before[k], j) else before[k])
  {
    hide HasStreamFields, Integer, IndexOf;
    SameIndex(before, streams, ToInt32(Integer(j, "id")));
  }

  /** It is no error if and only if all elements are for a stream. */
  lemma {:induction false} ElementsKnown(sender: bool, streams: seq<Stream>, items: seq<Json>, n: nat)
    requires n <= |items|
    ensures var (r, ok) := TakeStreams(sender, streams, items, n);
            && (forall i :: 0 <= i < |streams| ==> r[i].id == streams[i].id)
            && (ok <==> forall i :: 0 <= i < n ==> IsKnown(streams, items[i]))
  {
    hide TakeStream, IsKnown, Updated, IsFor;
    if n > 0 {
      ElementsKnown(sender, streams, items, n - 1);
      OneTaken(sender, streams, TakeStreams(sender, streams, items, n - 1).0, items[n - 1]);
    }
  }

  /** How many of the first n elements come up to the last one for the stream k. */
  function LastFor(streams: seq<Stream>, items: seq<Json>, n: nat, k: nat): (m: nat)
    requires n <= |items|
    ensures m <= n && (0 < m ==> IsFor(streams, items[m - 1], k))
    ensures forall i :: m <= i < n ==> !IsFor(streams, items[i], k)
  {
    if n == 0 then 0 else if IsFor(streams, items[n - 1], k) then n else LastFor(streams, items, n - 1, k)
  }

  /** Whatever elements come, with errors or without, each stream has the fields of the last one for it, or is as it
      was. */
  lemma {:induction false} ElementsTaken(sender: bool, streams: seq<Stream>, items: seq<Json>, n: nat, k: nat)
    requires n <= |items| && k < |streams|
    ensures var r, m := TakeStreams(sender, streams, items, n).0, LastFor(streams, items, n, k);
            && r[k] == (if m == 0 then streams[k] else Updated(sender, streams[k], items[m - 1]))
            && Fields(sender, r[k], streams[k])
  {
    hide TakeStream, IsKnown, Updated, IsFor, Fields;
    if n == 0 {
      NoFields(sender, streams[k]);
    } else {
      ElementsKnown(sender, streams, items, n - 1);
      ElementsTaken(sender, streams, items, n - 1, k);
      var before := TakeStreams(sender, streams, items, n - 1).0;
      OneTaken(sender, streams, before, items[n - 1]);
      if IsFor(streams, items[n - 1], k) {
        HasFields(streams, items[n - 1], k);
        UpdatedAgain(sender, streams[k], before[k], items[n - 1]);
      }
    }
  }

  lemma HasFields(streams: seq<Stream>, j: Json, k: nat)
    requires IsFor(streams, j, k)
    ensures HasStreamFields(j)
  {
  }

  /** Two streams that differ at most in what results update. */
  predicate Fields(sender: bool, s: Stream, s': Stream) {
    if sender then
      s == s'.(jitter := s.jitter, errors := s.errors, packets := s.packets, bytesReceived := s.bytesReceived)
    else s == s'.(bytesSent := s.bytesSent, retransmits := s.retransmits)
  }

  lemma NoFields(sender: bool, s: Stream)
    ensures Fields(sender, s, s)
  {
  }

  lemma UpdatedAgain(sender: bool, s: Stream, before: Stream, j: Json)
    requires Fields(sender, before, s) && HasStreamFields(j)
    ensures Updated(sender, before, j) == Updated(sender, s, j) && Fields(sender, Updated(sender, s, j), s)
  {
    hide Lookup, Integer, ValueDouble, ToInt32, ToUint64;
  }

  /** get_results fails if and only if a part of the results is missing or an element is for no stream. */
  lemma TakenIff(side: Side, j: Json)
    ensures Taken(side, j).1 <==>
              && Lookup(j, "cpu_util_total").Some? && Lookup(j, "cpu_util_user").Some?
              && Lookup(j, "cpu_util_system").Some? && Lookup(j, "sender_has_retransmits").Some?
              && Lookup(j, "streams").Some?
              && forall item <- Children(Lookup(j, "streams").value) :: IsKnown(side.streams, item)
  {
    hide Lookup, IsKnown, ValueDouble, Integer, OutputTaken, TakeStreams, Children;
    if Lookup(j, "streams").Some? {
      var items := Children(Lookup(j, "streams").value);
      ElementsKnown(side.sender, side.streams, items, |items|);
      assert forall i :: 0 <= i < |items| ==> items[i] in items;
    }
  }

  // ---- one stream ----

  /** Counts as their types and double precision allow them. */
  predicate Countable(side: Side, s: Stream) {
    && IsInt32(s.id) && IsInt32(s.retransmits) && IsInt32(s.errors) && IsInt32(s.packets)
    && 0 <= Transferred(side, s) <= EXACT_MAX
  }

  lemma {:induction false} FindAt(members: seq<Member>, k: nat, name: string)
    requires k < |members| && members[k].name == name
    requires forall i :: 0 <= i < k ==> !SameName(members[i].name, name)
    ensures Find(members, name) == Some(members[k].value)
    decreases k
  {
    if k > 0 {
      forall i | 0 <= i < k - 1 ensures !SameName(members[1..][i].name, name) {
        assert members[1..][i] == members[i + 1];
      }
      FindAt(members[1..], k - 1, name);
    }
  }

  lemma {:induction false} FindAbsent(members: seq<Member>, name: string)
    requires forall m <- members :: !SameName(m.name, name)
    ensures Find(members, name) == None
  {
    if members != [] {
      FindAbsent(members[1..], name);
    }
  }

  lemma NamesOfStream()
    ensures !SameName("id", "bytes")
    ensures !SameName("id", "retransmits") && !SameName("bytes", "retransmits")
    ensures !SameName("id", "jitter") && !SameName("bytes", "jitter") && !SameName("retransmits", "jitter")
    ensures !SameName("id", "errors") && !SameName("bytes", "errors") && !SameName("retransmits", "errors")
    ensures !SameName("jitter", "errors")
    ensures !SameName("id", "packets") && !SameName("bytes", "packets") && !SameName("retransmits", "packets")
    ensures !SameName("jitter", "packets") && !SameName("errors", "packets")
  {
    assert Lower("jitter"[0]) != Lower("errors"[0]);
  }

  /** The names of the results differ, but for the lengths, in one place. */
  lemma NamesOfResults()
    ensures !SameName("cpu_util_total", "cpu_util_user")
    ensures !SameName("cpu_util_total", "cpu_util_system") && !SameName("cpu_util_user", "cpu_util_system")
    ensures !SameName("cpu_util_total", "sender_has_retransmits")
    ensures !SameName("cpu_util_user", "sender_has_retransmits")
    ensures !SameName("cpu_util_system", "sender_has_retransmits")
  {
  }

  lemma NamesBeforeStreams()
    ensures !SameName("cpu_util_total", "streams") && !SameName("cpu_util_user", "streams")
    ensures !SameName("cpu_util_system", "streams") && !SameName("sender_has_retransmits", "streams")
    ensures !SameName("server_output_json", "streams") && !SameName("server_output_text", "streams")
  {
  }

  lemma NamesOfOutput(name: string)
    requires name == "server_output_json" || name == "server_output_text"
    ensures !SameName("cpu_util_total", name) && !SameName("cpu_util_user", name)
    ensures !SameName("cpu_util_system", name) && !SameName("sender_has_retransmits", name)
    ensures !SameName("streams", name)
    ensures SameName("server_output_json", name) <==> name == "server_output_json"
    ensures SameName("server_output_text", name) <==> name == "server_output_text"
  {
    assert Lower("server_output_json"[14]) != Lower("server_output_text"[14]);
  }

  // ---- transit ----

  lemma IntConveyed(n: int)
    requires -EXACT_MAX <= n <= EXACT_MAX
    ensures Conveyed(Int(n)) == Int(n) && ValueInt(Int(n)) == n
  {
    ShownExact(n as real);
    ValueOfInt(n);
  }

  lemma ConveyedAt(members: seq<Member>, k: nat)
    requires k < |members|
    ensures var got := Conveyed(Object(members));
            && got.Object? && |got.members| == |members|
            && got.members[k] == Member(members[k].name, Conveyed(members[k].value))
  {
  }

  /** The members of a stream's tree, wherever it comes out, hold its counts. */
  lemma StreamDelivered(side: Side, s: Stream)
    requires Countable(side, s)
    ensures var j := Conveyed(StreamTree(side, s));
            && HasStreamFields(j)
            && Integer(j, "id") == s.id && Integer(j, "bytes") == Transferred(side, s)
            && Integer(j, "retransmits") == (if side.sender && side.hasRetransmits != 0 then s.retransmits else -1)
            && Integer(j, "errors") == s.errors && Integer(j, "packets") == s.packets
            && ValueDouble(Lookup(j, "jitter").value) == Shown(s.jitter)
  {
    hide SameName, ValueInt, Find, Conveyed, ConveyedMembers, Int;
    NamesOfStream();
    var sent := StreamTree(side, s).members;
    ConveyedAt(sent, 0);
    ConveyedAt(sent, 1);
    ConveyedAt(sent, 2);
    ConveyedAt(sent, 3);
    ConveyedAt(sent, 4);
    ConveyedAt(sent, 5);
    var got := Conveyed(StreamTree(side, s)).members;
    FindAt(got, 0, "id");
    FindAt(got, 1, "bytes");
    FindAt(got, 2, "retransmits");
    FindAt(got, 3, "jitter");
    FindAt(got, 4, "errors");
    FindAt(got, 5, "packets");
    NumberConveyed(s.jitter);
    IntConveyed(s.id);
    IntConveyed(Transferred(side, s));
    IntConveyed(if side.sender && side.hasRetransmits != 0 then s.retransmits else -1);
    IntConveyed(s.errors);
    IntConveyed(s.packets);
  }

  lemma NumberConveyed(v: real)
    ensures Conveyed(Number(v)) == Number(Shown(v))
  {
  }

  // ---- all streams ----

  /** What the results of the other side, f there, make of a stream s here. */
  ghost predicate Reported(from: Side, f: Stream, sender: bool, s: Stream, s': Stream) {
    s' == if sender then
            s.(jitter := Shown(f.jitter), errors := f.errors, packets := f.packets,
               bytesReceived := Transferred(from, f))
          else
            s.(bytesSent := Transferred(from, f),
               retransmits := if from.sender && from.hasRetransmits != 0 then f.retransmits else -1)
  }

  /** Both sides have the same number of streams, numbered as they were added. */
  ghost predicate Paired(from: Side, streams: seq<Stream>) {
    && Numbered(from.streams) && Numbered(streams) && |from.streams| == |streams|
    && forall k :: 0 <= k < |from.streams| ==> Countable(from, from.streams[k])
  }

  lemma StreamReported(from: Side, sender: bool, streams: seq<Stream>, k: nat)
    requires Paired(from, streams) && k < |streams|
    ensures var (r, ok) := TakeStream(sender, streams, Conveyed(StreamTree(from, from.streams[k])));
            && ok && r == streams[k := r[k]]
            && Reported(from, from.streams[k], sender, streams[k], r[k])
  {
    hide Conveyed, StreamTree, HasStreamFields, Integer, ToInt32, ToUint64, IndexOf, Shown;
    var f := from.streams[k];
    assert Countable(from, f);
    StreamDelivered(from, f);
    NumbersMatch(from.streams, streams, k);
  }

  lemma {:induction false} StreamsReported(from: Side, sender: bool, streams: seq<Stream>, items: seq<Json>, n: nat)
    requires Paired(from, streams) && n <= |items| == |streams|
    requires forall k :: 0 <= k < n ==> items[k] == Conveyed(StreamTree(from, from.streams[k]))
    ensures var (r, ok) := TakeStreams(sender, streams, items, n);
            && ok && Numbered(r)
            && (forall k :: 0 <= k < n ==> Reported(from, from.streams[k], sender, streams[k], r[k]))
            && (forall k :: n <= k < |streams| ==> r[k] == streams[k])
  {
    hide TakeStream, Reported, Conveyed, Countable, StreamTree;
    if n > 0 {
      StreamsReported(from, sender, streams, items, n - 1);
      var before := TakeStreams(sender, streams, items, n - 1).0;
      StreamReported(from, sender, before, n - 1);
      ReportedKeepsId(from, from.streams[n - 1], sender, before[n - 1],
                      TakeStream(sender, before, items[n - 1]).0[n - 1]);
    }
  }

  lemma ReportedKeepsId(from: Side, f: Stream, sender: bool, s: Stream, s': Stream)
    requires Reported(from, f, sender, s, s')
    ensures s'.id == s.id
  {
  }

  lemma {:induction false} StreamTreesAt(side: Side, n: nat)
    requires n <= |side.streams|
    ensures |StreamTrees(side, n)| == n
    ensures forall k :: 0 <= k < n ==> StreamTrees(side, n)[k] == StreamTree(side, side.streams[k])
  {
    hide StreamTree;
    if n > 0 {
      StreamTreesAt(side, n - 1);
    }
  }

  // ---- the whole tree ----

  /** What a client then has of the server's output. */
  function OutputReported(from: Side, to: Side): (Option<Json>, Option<string>) {
    if to.server || !to.wantsOutput || !from.server || !from.wantsOutput then (to.serverJson, to.serverText)
    else
      match from.output
      case JsonOutput(top) => (Some(Conveyed(top)), to.serverText)
      case TextOutput(lines) => (to.serverJson, Some(Concat(lines)))
  }

  /** The members that come, in their order. */
  lemma MembersConveyed(from: Side)
    ensures var got, o := Conveyed(ResultTree(from)), OutputMember(from);
            && got.Object? && |got.members| == 5 + |o| && |o| <= 1
            && got.members[0] == Member("cpu_util_total", Number(Shown(from.cpu.0)))
            && got.members[1] == Member("cpu_util_user", Number(Shown(from.cpu.1)))
            && got.members[2] == Member("cpu_util_system", Number(Shown(from.cpu.2)))
            && got.members[3] ==
                 Member("sender_has_retransmits", Conveyed(Int(if from.sender then from.hasRetransmits else -1)))
            && (o != [] ==> got.members[4] == Member(o[0].name, Conveyed(o[0].value)))
            && got.members[4 + |o|] == Member("streams", Conveyed(Array(StreamTrees(from, |from.streams|))))
  {
    hide Conveyed, ConveyedMembers, StreamTrees, Int;
    var sent := ResultTree(from).members;
    ConveyedAt(sent, 0);
    ConveyedAt(sent, 1);
    ConveyedAt(sent, 2);
    ConveyedAt(sent, 3);
    ConveyedAt(sent, 4);
    ConveyedAt(sent, |sent| - 1);
    NumberConveyed(from.cpu.0);
    NumberConveyed(from.cpu.1);
    NumberConveyed(from.cpu.2);
  }

  /** The four numbers at the head and the list are found. */
  lemma HeadFound(from: Side)
    requires IsInt32(from.hasRetransmits)
    ensures var j := Conveyed(ResultTree(from));
            && Lookup(j, "cpu_util_total") == Some(Number(Shown(from.cpu.0)))
            && Lookup(j, "cpu_util_user") == Some(Number(Shown(from.cpu.1)))
            && Lookup(j, "cpu_util_system") == Some(Number(Shown(from.cpu.2)))
            && Lookup(j, "sender_has_retransmits") == Some(Int(if from.sender then from.hasRetransmits else -1))
            && Lookup(j, "streams") == Some(Conveyed(Array(StreamTrees(from, |from.streams|))))
  {
    hide SameName, Find, Conveyed, ResultTree, StreamTrees, Int, Shown;
    NamesOfResults();
    NamesBeforeStreams();
    MembersConveyed(from);
    var got := Conveyed(ResultTree(from)).members;
    FindAt(got, 0, "cpu_util_total");
    FindAt(got, 1, "cpu_util_user");
    FindAt(got, 2, "cpu_util_system");
    FindAt(got, 3, "sender_has_retransmits");
    FindAt(got, 4 + |OutputMember(from)|, "streams");
    IntConveyed(if from.sender then from.hasRetransmits else -1);
  }

  /** The output is found under its name, and nothing under another. */
  lemma OutputFound(from: Side, name: string)
    requires name == "server_output_json" || name == "server_output_text"
    ensures Lookup(Conveyed(ResultTree(from)), name) ==
            var o := OutputMember(from);
            if o != [] && o[0].name == name then Some(Conveyed(o[0].value)) else None
  {
    hide SameName, Find, Conveyed, ResultTree, StreamTrees, Int, Shown;
    NamesOfOutput(name);
    MembersConveyed(from);
    var got, o := Conveyed(ResultTree(from)).members, OutputMember(from);
    if o != [] && o[0].name == name {
      FindAt(got, 4, name);
    } else {
      FindAbsent(got, name);
    }
  }

  lemma OutputArrives(from: Side, to: Side)
    ensures var r := OutputTaken(to, Conveyed(ResultTree(from)));
            r == to.(serverJson := OutputReported(from, to).0, serverText := OutputReported(from, to).1)
  {
    hide Lookup, ResultTree, Conveyed;
    OutputFound(from, "server_output_json");
    OutputFound(from, "server_output_text");
    TextConveyed(from);
  }

  lemma TextConveyed(from: Side)
    ensures from.output.TextOutput? ==>
              Conveyed(String(Concat(from.output.lines))) == String(Concat(from.output.lines))
  {
  }

  lemma ArrayConveyed(items: seq<Json>)
    ensures var j := Conveyed(Array(items));
            j.Array? && |j.items| == |items| && forall k :: 0 <= k < |items| ==> j.items[k] == Conveyed(items[k])
  {
  }

  lemma ListReported(from: Side, to: Side)
    requires Paired(from, to.streams) && IsInt32(from.hasRetransmits)
    ensures var (streams, ok) := ListTaken(to.sender, to.streams, Conveyed(ResultTree(from)));
            && ok && Numbered(streams) && |streams| == |to.streams|
            && forall k :: 0 <= k < |to.streams| ==>
                 Reported(from, from.streams[k], to.sender, to.streams[k], streams[k])
  {
    hide Lookup, Conveyed, ResultTree, Numbered, Countable, Reported, StreamTree, StreamTrees, TakeStreams;
    HeadFound(from);
    StreamTreesAt(from, |from.streams|);
    ArrayConveyed(StreamTrees(from, |from.streams|));
    StreamsReported(from, to.sender, to.streams, Conveyed(Array(StreamTrees(from, |from.streams|))).items,
                    |to.streams|);
  }

  /** Results that come from a side with as many streams are taken whole. */
  lemma ResultsTaken(from: Side, to: Side)
    requires Paired(from, to.streams) && IsInt32(from.hasRetransmits)
    ensures var (r, ok) := Taken(to, Conveyed(ResultTree(from)));
            && ok && Numbered(r.streams) && |r.streams| == |to.streams|
            && r == to.(hasRetransmits := if to.sender then to.hasRetransmits
                                          else if from.sender then from.hasRetransmits else -1,
                        remoteCpu := (Shown(from.cpu.0), Shown(from.cpu.1), Shown(from.cpu.2)),
                        streams := r.streams,
                        serverJson := OutputReported(from, to).0, serverText := OutputReported(from, to).1)
            && forall k :: 0 <= k < |to.streams| ==>
                 Reported(from, from.streams[k], to.sender, to.streams[k], r.streams[k])
  {
    hide Lookup, Conveyed, ResultTree, Paired, Numbered, Reported, ListTaken, OutputTaken, Shown, Int, ValueInt;
    HeadFound(from);
    ListReported(from, to);
    IntConveyed(if from.sender then from.hasRetransmits else -1);
    var j := Conveyed(ResultTree(from));
    var streams := ListTaken(to.sender, to.streams, j).0;
    OutputArrives(from,
                  to.(remoteCpu := (Shown(from.cpu.0), Shown(from.cpu.1), Shown(from.cpu.2)),
                      hasRetransmits := if to.sender then to.hasRetransmits
                                        else if from.sender then from.hasRetransmits else -1,
                      streams := streams));
  }

  // ---- what is sent can be printed ----

  /** Numbers that are doubles and an output that can be printed. */
  ghost predicate Printed(side: Side) {
    && IsFinite(side.cpu.0) && IsFinite(side.cpu.1) && IsFinite(side.cpu.2)
    && (forall k :: 0 <= k < |side.streams| ==> IsFinite(side.streams[k].jitter))
    && match side.output
       case JsonOutput(top) => Printable(top)
       case TextOutput(lines) => IsCString(Concat(lines))
  }

  ghost predicate MemberPrintable(m: Member) {
    IsCString(m.name) && Printable(m.value)
  }

  lemma ObjectPrintable(members: seq<Member>)
    requires forall k :: 0 <= k < |members| ==> MemberPrintable(members[k])
    ensures Printable(Object(members))
  {
    forall m | m in members ensures IsCString(m.name) && Printable(m.value) {
      var k :| 0 <= k < |members| && members[k] == m;
      assert MemberPrintable(members[k]);
    }
  }

  lemma ArrayPrintable(items: seq<Json>)
    requires forall k :: 0 <= k < |items| ==> Printable(items[k])
    ensures Printable(Array(items))
  {
  }

  lemma HeadNamesPrintable()
    ensures IsCString("cpu_util_total") && IsCString("cpu_util_user") && IsCString("cpu_util_system")
    ensures IsCString("sender_has_retransmits")
  {
  }

  lemma OtherNamesPrintable()
    ensures IsCString("streams") && IsCString("server_output_json") && IsCString("server_output_text")
  {
  }

  lemma StreamNamesPrintable()
    ensures IsCString("id") && IsCString("bytes") && IsCString("retransmits") && IsCString("jitter")
    ensures IsCString("errors") && IsCString("packets")
  {
  }

  lemma ResultsPrintable(side: Side)
    requires Printed(side) && AllCountable(side)
    ensures Printable(ResultTree(side))
  {
    hide IsFinite, IsCString, Int, StreamTree, StreamTrees, Countable;
    StreamTreesAt(side, |side.streams|);
    var trees := StreamTrees(side, |side.streams|);
    forall k | 0 <= k < |trees| ensures Printable(trees[k]) {
      StreamPrintable(side, side.streams[k]);
    }
    ArrayPrintable(trees);
    IntExact(if side.sender then side.hasRetransmits else -1);
    HeadNamesPrintable();
    OtherNamesPrintable();
    ObjectPrintable(ResultTree(side).members);
  }

  lemma StreamPrintable(side: Side, s: Stream)
    requires Countable(side, s) && IsFinite(s.jitter)
    ensures Printable(StreamTree(side, s))
  {
    hide IsFinite, IsCString, Int;
    IntExact(s.id);
    IntExact(Transferred(side, s));
    IntExact(if side.sender && side.hasRetransmits != 0 then s.retransmits else -1);
    IntExact(s.errors);
    IntExact(s.packets);
    StreamNamesPrintable();
    ObjectPrintable(StreamTree(side, s).members);
  }

  lemma ReportedPrinted(from: Side, to: Side)
    requires Paired(from, to.streams) && IsInt32(from.hasRetransmits) && Printed(from) && Printed(to)
    ensures Printed(Taken(to, Conveyed(ResultTree(from))).0)
  {
    hide Conveyed, ResultTree, Taken, IsFinite, Shown;
    ResultsTaken(from, to);
    var r := Taken(to, Conveyed(ResultTree(from))).0;
    forall k | 0 <= k < |r.streams| ensures IsFinite(r.streams[k].jitter) {
      assert Reported(from, from.streams[k], to.sender, to.streams[k], r.streams[k]);
      ShownFinite(from.streams[k].jitter);
    }
  }

  // ---- the exchange ----

  ghost predicate AllCountable(side: Side) {
    IsInt32(side.hasRetransmits) && forall k :: 0 <= k < |side.streams| ==> Countable(side, side.streams[k])
  }

  lemma ReportedCountable(from: Side, f: Stream, to: Side, s: Stream, to': Side, s': Stream)
    requires Reported(from, f, to.sender, s, s') && to'.sender == to.sender != from.sender
    requires Countable(from, f) && Countable(to, s)
    ensures Countable(to', s')
    ensures Transferred(to', s') == Transferred(to, s)
  {
    hide Shown;
  }

  lemma AllReportedCountable(from: Side, to: Side)
    requires Paired(from, to.streams) && AllCountable(from) && AllCountable(to) && from.sender != to.sender
    ensures AllCountable(Taken(to, Conveyed(ResultTree(from))).0)
  {
    hide Conveyed, ResultTree, Taken, Shown, Countable, Reported;
    ResultsTaken(from, to);
    var r := Taken(to, Conveyed(ResultTree(from))).0;
    forall k | 0 <= k < |r.streams| ensures Countable(r, r.streams[k]) {
      ReportedCountable(from, from.streams[k], to, to.streams[k], r, r.streams[k]);
    }
  }

  /** What the two sides hold at the end, s where the data was sent and r where it was received. */
  ghost predicate Settled(s: Stream, s0: Stream, r: Stream, r0: Stream, hasRetransmits: int) {
    && s.id == r.id
    && r.bytesSent == s.bytesSent - s.bytesSentOmit == s0.bytesSent - s0.bytesSentOmit
    && s.bytesReceived == r.bytesReceived == r0.bytesReceived
    && s.errors == r.errors == r0.errors && s.packets == r.packets == r0.packets
    && r.jitter == r0.jitter && s.jitter == Shown(r0.jitter)
    && s.retransmits == s0.retransmits && r.retransmits == (if hasRetransmits != 0 then s0.retransmits else -1)
    // the receiver's own offset spoils the difference unless it is zero
    && (r.bytesSent - r.bytesSentOmit == s.bytesSent - s.bytesSentOmit <==> r0.bytesSentOmit == 0)
  }

  ghost predicate AllSettled(cl: Side, cl': Side, sv: Side, sv': Side) {
    && |cl'.streams| == |sv'.streams| == |cl.streams| == |sv.streams|
    && forall k :: 0 <= k < |cl.streams| ==>
         if cl.sender then
           Settled(cl'.streams[k], cl.streams[k], sv'.streams[k], sv.streams[k], cl.hasRetransmits)
         else
           Settled(sv'.streams[k], sv.streams[k], cl'.streams[k], cl.streams[k], sv.hasRetransmits)
  }

  /** Two sides that can exchange results: as many streams on both, and one of them sends. */
  ghost predicate Opposed(cl: Side, sv: Side) {
    && Numbered(cl.streams) && Numbered(sv.streams) && |cl.streams| == |sv.streams| && cl.sender != sv.sender
    && AllCountable(cl) && AllCountable(sv)
  }

  /** The server takes the client's results, and then the client takes the server's. */
  lemma ResultsAgree(cl: Side, sv: Side)
    requires Opposed(cl, sv)
    ensures var (sv', svOk) := Taken(sv, Conveyed(ResultTree(cl)));
            var (cl', clOk) := Taken(cl, Conveyed(ResultTree(sv')));
            && svOk && clOk && AllSettled(cl, cl', sv, sv')
            && sv'.hasRetransmits == cl'.hasRetransmits == (if cl.sender then cl else sv).hasRetransmits
            && sv'.remoteCpu == (Shown(cl.cpu.0), Shown(cl.cpu.1), Shown(cl.cpu.2))
            && cl'.remoteCpu == (Shown(sv.cpu.0), Shown(sv.cpu.1), Shown(sv.cpu.2))
            && (cl'.serverJson, cl'.serverText) == OutputReported(sv, cl)
  {
    hide Numbered, Countable, Conveyed, Taken, ResultTree, Settled, Reported, Shown;
    ResultsTaken(cl, sv);
    AllReportedCountable(cl, sv);
    var sv' := Taken(sv, Conveyed(ResultTree(cl))).0;
    ResultsTaken(sv', cl);
    var cl' := Taken(cl, Conveyed(ResultTree(sv'))).0;
    forall k | 0 <= k < |cl.streams|
      ensures if cl.sender then
                Settled(cl'.streams[k], cl.streams[k], sv'.streams[k], sv.streams[k], cl.hasRetransmits)
              else
                Settled(sv'.streams[k], sv.streams[k], cl'.streams[k], cl.streams[k], sv.hasRetransmits)
    {
      NumbersMatch(cl.streams, sv.streams, k);
      StreamSettled(cl, cl.streams[k], sv, sv.streams[k], sv', sv'.streams[k], cl'.streams[k]);
    }
  }

  lemma StreamSettled(cl: Side, c: Stream, sv: Side, s: Stream, sv': Side, s': Stream, c': Stream)
    requires cl.sender != sv.sender == sv'.sender && c.id == s.id
    requires sv.sender ==> sv'.hasRetransmits == sv.hasRetransmits
    requires Reported(cl, c, sv.sender, s, s') && Reported(sv', s', cl.sender, c, c')
    ensures if cl.sender then Settled(c', c, s', s, cl.hasRetransmits) else Settled(s', s, c', c, sv.hasRetransmits)
  {
    hide Shown;
  }

  /** The whole exchange over the two directions of the control connection, for texts that JSON_read accepts: both
      frames are read to their ends and no further. */
  lemma ResultsExchanged(cl: Side, sv: Side, rest1: string, rest2: string)
    requires Opposed(cl, sv) && Printed(cl) && Printed(sv)
    requires |Text(ResultTree(cl), 0, false)| <= INT_MAX
    ensures var (j1, left1) := ReadFrame(Frame(Text(ResultTree(cl), 0, false)) + rest1);
            && j1.Some? && left1 == rest1
            && var sv' := Taken(sv, j1.value).0;
            && Taken(sv, j1.value).1
            && (|Text(ResultTree(sv'), 0, false)| <= INT_MAX ==>
                  var (j2, left2) := ReadFrame(Frame(Text(ResultTree(sv'), 0, false)) + rest2);
                  && j2.Some? && left2 == rest2 && Taken(cl, j2.value).1
                  && AllSettled(cl, Taken(cl, j2.value).0, sv, sv'))
  {
    hide Countable, Printed, Conveyed, Taken, ResultTree, AllSettled, Text, Frame, ReadFrame, Printable;
    ResultsPrintable(cl);
    FrameRoundTrip(ResultTree(cl), rest1);
    ResultsAgree(cl, sv);
    AllReportedCountable(cl, sv);
    ReportedPrinted(cl, sv);
    var sv' := Taken(sv, Conveyed(ResultTree(cl))).0;
    ResultsPrintable(sv');
    if |Text(ResultTree(sv'), 0, false)| <= INT_MAX {
      FrameRoundTrip(ResultTree(sv'), rest2);
    }
  }

  /** A jitter of up to 10^9 seconds is off by half of a microsecond at most at the other side. */
  lemma JitterNear(s: Stream, s0: Stream, r: Stream, r0: Stream, hasRetransmits: int)
    requires Settled(s, s0, r, r0, hasRetransmits) && Absolute(r0.jitter) <= 1_000_000_000.0
    ensures Absolute(s.jitter - r.jitter) <= 0.0000005
  {
    hide Shown;
    ShownNear(r0.jitter);
  }
}
