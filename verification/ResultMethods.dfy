/**
 iperf_add_stream, send_results and get_results as they run.
 */
module ResultMethods {
  import opened CInt
  import opened CText
  import opened Json
  import opened Numerals
  import opened ObjectItems
  import opened Parameters
  import opened Wrappers
  import opened Results
  import JsonNames

  /** The part of a test that the exchange of results reads or writes. */
  class Test {
    var sender: bool
    var hasRetransmits: int
    var cpu: (real, real, real)
    var remoteCpu: (real, real, real)
    var streams: seq<Stream>
    var server: bool
    var wantsOutput: bool
    var output: Output
    var serverJson: Option<Json>
    var serverText: Option<string>

    ghost function View(): Side
      reads this
    {
      Side(sender, hasRetransmits, cpu, remoteCpu, streams, server, wantsOutput, output, serverJson, serverText)
    }

    constructor (sender: bool, server: bool, wantsOutput: bool, output: Output)
      ensures View() == Side(sender, 0, (0.0, 0.0, 0.0), (0.0, 0.0, 0.0), [], server, wantsOutput, output, None, None)
    {
      this.sender, hasRetransmits, streams := sender, 0, [];
      cpu, remoteCpu := (0.0, 0.0, 0.0), (0.0, 0.0, 0.0);
      this.server, this.wantsOutput, this.output := server, wantsOutput, output;
      serverJson, serverText := None, None;
    }

    /** iperf_add_stream: the new stream goes last, with the next number. */
    method AddStream(sp: Stream)
      requires Numbered(streams)
      modifies this`streams
      ensures streams == old(streams) + [sp.(id := NextId(|old(streams)|))]
      ensures Numbered(streams)
    {
      if streams == [] {
        streams := [sp.(id := 1)];
      } else {
        var i := 2;
        var n: nat := 0;
        while n < |streams|
          invariant n <= |streams| && i == 2 + n
        {
          n, i := n + 1, i + 1;
        }
        streams := streams + [sp.(id := i)];
      }
    }

    method BuildResults() returns (j: Json)
      ensures j == ResultTree(View())
    {
      hide StreamTree, Concat;
      ghost var side := View();
      var members := [
        Member("cpu_util_total", Number(cpu.0)),
        Member("cpu_util_user", Number(cpu.1)),
        Member("cpu_util_system", Number(cpu.2)),
        Member("sender_has_retransmits", Int(if !sender then -1 else hasRetransmits))];
      assert members == HeadMembers(side);
      if server && wantsOutput {
        match output
        case JsonOutput(top) => members := members + [Member("server_output_json", top)];
        case TextOutput(lines) =>
          var text := OutputText(lines);
          members := members + [Member("server_output_text", String(text))];
      }
      assert members == HeadMembers(side) + OutputMember(side);
      var trees: seq<Json> := [];
      var n: nat := 0;
      while n < |streams|
        invariant n <= |streams| && trees == StreamTrees(side, n)
      {
        var tree := BuildStream(streams[n]);
        trees := trees + [tree];
        n := n + 1;
      }
      j := Object(members + [Member("streams", Array(trees))]);
    }

    /** The lines in one string: strncat copies no more than the room that is left, which is enough for all of them. */
    static method OutputText(lines: seq<string>) returns (output: string)
      ensures output == Concat(lines)
    {
      var buflen: nat := 0;
      var n: nat := 0;
      while n < |lines|
        invariant n <= |lines| && buflen + |Concat(lines[n..])| == |Concat(lines)|
      {
        assert lines[n..][1..] == lines[n + 1..];
        buflen, n := buflen + |lines[n]|, n + 1;
      }
      output, n := "", 0;
      while n < |lines|
        invariant n <= |lines| && buflen == |Concat(lines[n..])| && output + Concat(lines[n..]) == Concat(lines)
      {
        assert lines[n..][1..] == lines[n + 1..];
        var copied: nat := if |lines[n]| < buflen then |lines[n]| else buflen;
        output, buflen, n := output + lines[n][..copied], buflen - copied, n + 1;
      }
    }

    method BuildStream(s: Stream) returns (j: Json)
      ensures j == StreamTree(View(), s)
    {
      var transferred := if sender then s.bytesSent - s.bytesSentOmit else s.bytesReceived;
      var retransmits := if sender && hasRetransmits != 0 then s.retransmits else -1;
      j := Object([
        Member("id", Int(s.id)),
        Member("bytes", Int(transferred)),
        Member("retransmits", Int(retransmits)),
        Member("jitter", Number(s.jitter)),
        Member("errors", Int(s.errors)),
        Member("packets", Int(s.packets))]);
    }

    method FindStream(id: int) returns (k: nat)
      ensures k == IndexOf(streams, id)
    {
      k := 0;
      while k < |streams| && streams[k].id != id
        invariant k <= |streams| && IndexOf(streams, id) == k + IndexOf(streams[k..], id)
      {
        assert streams[k..][1..] == streams[k + 1..];
        k := k + 1;
      }
    }

    /** One element of the array; false if something of it is missing or unknown. */
    method TakeOne(j: Json) returns (ok: bool)
      requires JsonNames.Named(j)
      modifies this`streams
      ensures (streams, ok) == TakeStream(sender, old(streams), j)
    {
      hide Find, SameName, JsonNames.Named, ToInt32, ToUint64, ValueInt;
      ItemNames(j);
      var id := GetObjectItem(j, "id");
      var bytes := GetObjectItem(j, "bytes");
      var retransmits := GetObjectItem(j, "retransmits");
      var jitter := GetObjectItem(j, "jitter");
      var errors := GetObjectItem(j, "errors");
      var packets := GetObjectItem(j, "packets");
      if id.None? || bytes.None? || retransmits.None? || jitter.None? || errors.None? || packets.None? {
        return false;
      }
      var k := FindStream(ToInt32(ValueInt(id.value)));
      if k == |streams| {
        return false;
      }
      var s := streams[k];
      if sender {
        s := s.(jitter := ValueDouble(jitter.value), errors := ToInt32(ValueInt(errors.value)),
                packets := ToInt32(ValueInt(packets.value)), bytesReceived := ToUint64(ValueInt(bytes.value)));
      } else {
        s := s.(bytesSent := ToUint64(ValueInt(bytes.value)), retransmits := ToInt32(ValueInt(retransmits.value)));
      }
      streams := streams[k := s];
      ok := true;
    }

    /** get_results on the tree that came; false stands for -1.  An element that fails does not stop the loop. */
    method TakeResults(j: Json) returns (ok: bool)
      requires JsonNames.Named(j)
      modifies this`remoteCpu, this`hasRetransmits, this`streams, this`serverJson, this`serverText
      ensures (View(), ok) == Taken(old(View()), j)
    {
      hide Find, SameName, ToInt32, ValueInt, RestTaken, ValueDouble, JsonNames.Named, IsCString;
      ItemNames(j);
      HeadNamesPrintable();
      var total := GetObjectItem(j, "cpu_util_total");
      var user := GetObjectItem(j, "cpu_util_user");
      var system := GetObjectItem(j, "cpu_util_system");
      var has := GetObjectItem(j, "sender_has_retransmits");
      if total.None? || user.None? || system.None? || has.None? {
        return false;
      }
      remoteCpu := (ValueDouble(total.value), ValueDouble(user.value), ValueDouble(system.value));
      if !sender {
        hasRetransmits := ToInt32(ValueInt(has.value));
      }
      ok := TakeRest(j);
    }

    method TakeRest(j: Json) returns (ok: bool)
      requires JsonNames.Named(j)
      modifies this`streams, this`serverJson, this`serverText
      ensures (View(), ok) == RestTaken(old(View()), j)
    {
      hide Find, SameName, ListTaken, OutputTaken, JsonNames.Named;
      ItemNames(j);
      var list := GetObjectItem(j, "streams");
      ok := TakeList(j);
      if list.Some? {
        TakeOutput(j);
      }
    }

    method TakeOutput(j: Json)
      requires JsonNames.Named(j)
      modifies this`serverJson, this`serverText
      ensures View() == OutputTaken(old(View()), j)
    {
      hide Find, SameName, JsonNames.Named, IsCString;
      ItemNames(j);
      OtherNamesPrintable();
      if !server && wantsOutput {
        var json := GetObjectItem(j, "server_output_json");
        if json.Some? {
          serverJson := json;
        } else {
          var text := GetObjectItem(j, "server_output_text");
          if text.Some? {
            serverText := TextOf(text.value);
          }
        }
      }
    }

    method TakeList(j: Json) returns (ok: bool)
      requires JsonNames.Named(j)
      modifies this`streams
      ensures (streams, ok) == ListTaken(sender, old(streams), j)
    {
      hide Find, SameName, TakeStreams, Children, JsonNames.Named;
      ItemNames(j);
      var list := GetObjectItem(j, "streams");
      if list.None? {
        return false;
      }
      ChildrenNamed(j, list.value);
      var items := Children(list.value);
      ok := TakeAll(items);
    }

    method TakeAll(items: seq<Json>) returns (ok: bool)
      requires forall item <- items :: JsonNames.Named(item)
      modifies this`streams
      ensures (streams, ok) == TakeStreams(sender, old(streams), items, |items|)
    {
      hide TakeStream, JsonNames.Named;
      ok := true;
      var i: nat := 0;
      while i < |items|
        invariant i <= |items| && (streams, ok) == TakeStreams(sender, old(streams), items, i)
      {
        assert items[i] in items;
        var taken := TakeOne(items[i]);
        ok := ok && taken;
        i := i + 1;
      }
    }
  }

  lemma ItemNames(j: Json)
    requires JsonNames.Named(j)
    ensures j.Object? ==> forall m <- j.members :: IsCString(m.name)
  {
  }

  lemma {:induction false} FoundIsMember(members: seq<Member>, name: string)
    requires Find(members, name).Some?
    ensures exists m :: m in members && m.value == Find(members, name).value
  {
    if SameName(members[0].name, name) {
      assert members[0] in members;
    } else {
      FoundIsMember(members[1..], name);
      var m :| m in members[1..] && m.value == Find(members[1..], name).value;
      assert m in members;
    }
  }

  lemma ChildrenNamed(j: Json, list: Json)
    requires JsonNames.Named(j) && Lookup(j, "streams") == Some(list)
    ensures forall item <- Children(list) :: JsonNames.Named(item)
  {
    FoundIsMember(j.members, "streams");
    assert JsonNames.Named(list);
  }
}
