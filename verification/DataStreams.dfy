/**
  The loops that move data: the producer's upload and acknowledgement reader, the data node's store and
  serve, and the consumer's download. Each is proved to do what its function in `Transfer` says.
 */
module DataStreams {
  import opened Wrappers
  import opened Messages
  import opened Orders
  import opened Wire
  import opened Codec
  import opened DataCodec
  import opened Framing
  import opened Transfer
  import TransferProperties

  // ---------- The writing half of a stream ----------

  /** What the next write of some bytes does: take some of them, take none, or fail. */
  datatype Outcome = Accept(n: nat) | Backpressure | Fail

  datatype Written = Wrote(n: nat) | WriteError

  class OutStream {
    var sent: seq<Byte>
    // How the writes to come will go; once it is used up, writes take everything.
    var script: seq<Outcome>

    constructor (script: seq<Outcome>)
      ensures sent == [] && this.script == script
    {
      sent := [];
      this.script := script;
    }

    method Write(bytes: seq<Byte>) returns (r: Written)
      requires bytes != []
      modifies this
      ensures match r
        case Wrote(n) => n <= |bytes| && sent == old(sent) + bytes[..n]
        case WriteError => sent == old(sent)
      ensures |script| <= |old(script)|
      ensures r == Wrote(0) ==> |script| < |old(script)|
      ensures Fail !in old(script) ==> r.Wrote? && Fail !in script
    {
      if script == [] {
        sent := sent + bytes;
        assert bytes[..|bytes|] == bytes;
        return Wrote(|bytes|);
      }
      var outcome := script[0];
      script := script[1..];
      match outcome {
        case Accept(n) =>
          var taken := if n == 0 then 1 else if n > |bytes| then |bytes| else n;
          sent := sent + bytes[..taken];
          return Wrote(taken);
        case Backpressure =>
          assert sent + bytes[..0] == sent;
          return Wrote(0);
        case Fail =>
          return WriteError;
      }
    }

    method WriteAll(bytes: seq<Byte>)
      modifies this`sent
      ensures sent == old(sent) + bytes
    {
      sent := sent + bytes;
    }
  }

  // ---------- write_to_stream ----------

  const UPLOAD_CHUNK: nat := 5 * 1024

  /**
    The chunk loop: every byte of the content goes out once and in order, whatever part of a chunk
    each write takes, unless a write fails, and then some of it is missing.
   */
  method UploadContent(content: seq<Byte>, out: OutStream) returns (ghost cut: nat, ok: bool)
    modifies out
    ensures cut <= |content| && out.sent == old(out.sent) + content[..cut]
    ensures ok <==> cut == |content|
    ensures Fail !in old(out.script) ==> ok && Fail !in out.script
  {
    var chunkSize := UPLOAD_CHUNK;
    var written := 0;
    assert content[..0] == [];
    while written < |content|
      invariant 0 <= written <= |content| && chunkSize > 0
      invariant out.sent == old(out.sent) + content[..written]
      invariant Fail !in old(out.script) ==> Fail !in out.script
      decreases |out.script| + (|content| - written)
    {
      if written + chunkSize > |content| {
        chunkSize := |content| - written;
      }
      var chunk := content[written..written + chunkSize];
      var r := out.Write(chunk);
      match r {
        case Wrote(n) =>
          assert content[..written + n] == content[..written] + chunk[..n];
          written := written + n;
        case WriteError =>
          return written, false;
      }
    }
    return written, true;
  }

  ghost predicate CutsOf(us: seq<Upload>, cuts: seq<nat>) {
    |cuts| == |us| && forall i | 0 <= i < |us| :: cuts[i] <= |us[i].content|
  }

  /** A record of which only the first bytes of the content went out. */
  ghost function CutRecordBytes(u: Upload, cut: nat): seq<Byte>
    requires Ordered(u) && cut <= |u.content|
  {
    Frame(Message(u.metadata, u.order)) + u.content[..cut]
  }

  ghost function CutBytes(us: seq<Upload>, cuts: seq<nat>): seq<Byte>
    requires AllOrdered(us) && CutsOf(us, cuts)
    decreases |us|
  {
    if us == [] then []
    else
      var n := |us| - 1;
      CutBytes(us[..n], cuts[..n]) + CutRecordBytes(us[n], cuts[n])
  }

  method WriteRecord(u: Upload, out: OutStream) returns (ghost cut: nat)
    requires Ordered(u)
    modifies out
    ensures cut <= |u.content| && out.sent == old(out.sent) + CutRecordBytes(u, cut)
    ensures Fail !in old(out.script) ==> cut == |u.content| && Fail !in out.script
  {
    hide Message, Frame;
    var message := Frame(Message(u.metadata, u.order));
    out.WriteAll(message);
    ghost var before := out.sent;
    ghost var c, ok := UploadContent(u.content, out);
    cut := c;
    Associative(old(out.sent), message, u.content[..cut]);
  }

  /** How many records come before the first whose size is not that of its content. */
  function Matching(us: seq<Upload>): (n: nat)
    ensures n <= |us| && (forall i | 0 <= i < n :: SizeMatches(us[i])) && (n < |us| ==> !SizeMatches(us[n]))
  {
    if us == [] || !SizeMatches(us[0]) then 0 else 1 + Matching(us[1..])
  }

  lemma {:induction false} MatchingIs(us: seq<Upload>, k: nat)
    requires k <= |us| && (forall i | 0 <= i < k :: SizeMatches(us[i])) && (k < |us| ==> !SizeMatches(us[k]))
    ensures Matching(us) == k
    decreases k
  {
  }

  /**
    After a failed write the loop goes on with the next record, on the same stream. At a size that does
    not match it panics, with the records before it sent; `ok` is false then.
   */
  method WriteToStream(us: seq<Upload>, out: OutStream) returns (ghost cuts: seq<nat>, ok: bool)
    requires AllOrdered(us)
    modifies out
    ensures ok <==> forall i | 0 <= i < |us| :: SizeMatches(us[i])
    ensures AllOrdered(us[..Matching(us)]) && CutsOf(us[..Matching(us)], cuts)
    ensures out.sent == old(out.sent) + CutBytes(us[..Matching(us)], cuts)
    ensures Fail !in old(out.script) ==> out.sent == old(out.sent) + UploadBytes(us[..Matching(us)])
  {
    hide Ordered, CutBytes, CutRecordBytes, RecordBytes, UploadBytes;
    cuts := [];
    ok := true;
    var k := 0;
    NothingCut();
    while k < |us| && ok
      invariant 0 <= k <= |us|
      invariant CutsOf(us[..k], cuts) && AllOrdered(us[..k])
      invariant out.sent == old(out.sent) + CutBytes(us[..k], cuts)
      invariant forall i | 0 <= i < k :: SizeMatches(us[i])
      invariant !ok ==> k < |us| && !SizeMatches(us[k])
      invariant Fail !in old(out.script) ==> Fail !in out.script && forall i | 0 <= i < k :: cuts[i] == |us[i].content|
      decreases |us| - k, ok
    {
      if us[k].metadata.size != |us[k].content| {
        ok := false;
      } else {
        ghost var cut := WriteRecord(us[k], out);
        CutBytesStep(us, cuts, k, cut);
        Associative(old(out.sent), CutBytes(us[..k], cuts), CutRecordBytes(us[k], cut));
        cuts := cuts + [cut];
        k := k + 1;
      }
    }
    MatchingIs(us, k);
    if Fail !in old(out.script) { UncutUpload(us[..k], cuts); }
  }

  lemma NothingCut()
    ensures CutBytes([], []) == []
  {
  }

  lemma CutBytesStep(us: seq<Upload>, cuts: seq<nat>, k: nat, cut: nat)
    requires k < |us| && AllOrdered(us) && CutsOf(us[..k], cuts) && cut <= |us[k].content|
    ensures AllOrdered(us[..k + 1]) && AllOrdered(us[..k]) && CutsOf(us[..k + 1], cuts + [cut])
    ensures CutBytes(us[..k + 1], cuts + [cut]) == CutBytes(us[..k], cuts) + CutRecordBytes(us[k], cut)
  {
    hide Ordered, CutRecordBytes;
    assert us[..k + 1][..k] == us[..k] && (cuts + [cut])[..k] == cuts;
    forall i | 0 <= i < k
      ensures (cuts + [cut])[i] <= |us[i].content|
    {
      assert us[..k][i] == us[i];
    }
  }

  lemma WholeRecord(u: Upload)
    requires Ordered(u)
    ensures CutRecordBytes(u, |u.content|) == RecordBytes(u)
  {
  }

  /** When no write fails, the stream carries the whole upload. */
  lemma {:induction false} UncutUpload(us: seq<Upload>, cuts: seq<nat>)
    requires AllOrdered(us) && CutsOf(us, cuts) && forall i | 0 <= i < |us| :: cuts[i] == |us[i].content|
    ensures CutBytes(us, cuts) == UploadBytes(us)
    decreases |us|
  {
    hide Ordered, CutRecordBytes, RecordBytes, UploadBytes;
    if us == [] {
      NothingUploaded();
    } else {
      var n := |us| - 1;
      UncutUpload(us[..n], cuts[..n]);
      assert us == us[..n] + [us[n]];
      WholeRecord(us[n]);
      TransferProperties.OneUpload(us[n]);
      TransferProperties.UploadAppend(us[..n], [us[n]]);
    }
  }

  lemma NothingUploaded()
    ensures UploadBytes([]) == []
  {
  }

  // ---------- Reading frames off a stream ----------

  /** `read` into a buffer of 4 zero bytes: what is there of them, and how many that were. */
  method ReadHeader(src: InStream) returns (has: nat, lengthBuf: seq<Byte>)
    modifies src
    ensures has == (if |old(src.rest)| < 4 then |old(src.rest)| else 4)
    ensures |lengthBuf| == 4 && src.rest == old(src.rest)[has..]
    ensures has == 4 ==> lengthBuf == old(src.rest)[..4]
  {
    has := if |src.rest| < 4 then |src.rest| else 4;
    lengthBuf := src.rest[..has] + seq(4 - has, _ => 0);
    src.rest := src.rest[has..];
  }

  datatype Received = End | Corrupt | Received(metadata: Metadata)

  /** What both reading loops do first: a header, the metadata it announces, or the end. */
  method ReadFramedMetadata(src: InStream) returns (r: Received)
    modifies src
    ensures var b := old(src.rest);
      if b == [] then r == End
      else
        match ReadFrame(b)
        case None => r == Corrupt
        case Some((buffer, rest)) =>
          match ReadMessage(buffer)
          case None => r == Corrupt
          case Some(m) => r == Received(m) && src.rest == rest
  {
    hide ReadMessage, SizeFrom;
    var has, lengthBuf := ReadHeader(src);
    if has == 0 {
      return End;
    }
    var length := SizeFrom(lengthBuf);
    var buffer := src.ReadExact(length);
    if buffer.None? {
      return Corrupt;
    }
    EmptyMessage();
    var m := ReadMessage(buffer.value);
    match m {
      case None => return Corrupt;
      case Some(metadata) => return Received(metadata);
    }
  }

  lemma EmptyMessage()
    ensures ReadMessage([]) == None
  {
  }

  /** read_from_stream: the records for the consumer; None where it panics. */
  method ReadFromStream(src: InStream) returns (r: Option<seq<Download>>)
    modifies src
    ensures r == DownloadAll(old(src.rest))
  {
    hide ReadMessage, ReadFrame;
    var dest: seq<Download> := [];
    Unread(DownloadAll(src.rest));
    while true
      invariant DownloadAll(old(src.rest)) == Prepend(dest, DownloadAll(src.rest))
      decreases |src.rest|
    {
      ghost var b := src.rest;
      DownloadStep(b);
      var received := ReadFramedMetadata(src);
      match received {
        case End =>
          assert dest + [] == dest;
          return Some(dest);
        case Corrupt =>
          return None;
        case Received(metadata) =>
          var content := src.ReadExact(metadata.size);
          if content.None? {
            return None;
          }
          PrependOne(dest, Download(metadata, content.value), DownloadAll(src.rest));
          dest := dest + [Download(metadata, content.value)];
      }
    }
  }

  function Prepend<T>(front: seq<T>, rest: Option<seq<T>>): Option<seq<T>> {
    match rest
    case None => None
    case Some(more) => Some(front + more)
  }

  lemma Unread<T>(rest: Option<seq<T>>)
    ensures Prepend([], rest) == rest
  {
    if rest.Some? { assert [] + rest.value == rest.value; }
  }

  lemma PrependOne<T>(front: seq<T>, x: T, rest: Option<seq<T>>)
    ensures Prepend(front, Prepend([x], rest)) == Prepend(front + [x], rest)
  {
    if rest.Some? { assert front + ([x] + rest.value) == front + [x] + rest.value; }
  }

  lemma DownloadStep(b: seq<Byte>)
    ensures DownloadAll(b) ==
      if b == [] then Some([])
      else
        match ReadFrame(b)
        case None => None
        case Some((buffer, afterMetadata)) =>
          match ReadMessage(buffer)
          case None => None
          case Some(m) =>
            match Take(afterMetadata, m.size)
            case None => None
            case Some((content, rest)) => Prepend([Download(m, content)], DownloadAll(rest))
  {
  }

  /** The task in write_to_stream that hands the data node's echoes to the producer. */
  method ReadAcknowledgements(reader: InStream) returns (r: Option<seq<Metadata>>)
    modifies reader
    ensures r == ReadEchoes(old(reader.rest))
  {
    hide ReadMessage, ReadFrame;
    var response: seq<Metadata> := [];
    Unread(ReadEchoes(reader.rest));
    while true
      invariant ReadEchoes(old(reader.rest)) == Prepend(response, ReadEchoes(reader.rest))
      decreases |reader.rest|
    {
      EchoStep(reader.rest);
      var received := ReadFramedMetadata(reader);
      match received {
        case End =>
          assert response + [] == response;
          return Some(response);
        case Corrupt =>
          return None;
        case Received(metadata) =>
          PrependOne(response, metadata, ReadEchoes(reader.rest));
          response := response + [metadata];
      }
    }
  }

  lemma EchoStep(b: seq<Byte>)
    ensures ReadEchoes(b) ==
      if b == [] then Some([])
      else
        match ReadFrame(b)
        case None => None
        case Some((buffer, rest)) =>
          match ReadMessage(buffer)
          case None => None
          case Some(m) => Prepend([m], ReadEchoes(rest))
  {
  }

  // ---------- The data node ----------

  const SERVE_CHUNK: nat := 2 * 1024

  /** How an iteration of the record loop goes on. */
  datatype Stop = Continue(id: string) | Return(ok: bool)

  class DataNode {
    var files: map<string, File>

    constructor ()
      ensures files == map[]
    {
      files := map[];
    }

    /** The chunk loop of store_data_v1: full chunks, then the rest; a short read loses only its own chunk. */
    method StoreContent(id: string, dataSize: nat, stream: InStream) returns (ok: bool)
      requires id in files
      modifies this, stream
      ensures ok == (dataSize <= |old(stream.rest)|)
      ensures var b, f := old(stream.rest), old(files)[id];
        if ok then
          stream.rest == b[dataSize..] && files == old(files)[id := f.(content := f.content + b[..dataSize])]
        else
          files == old(files)[id := f.(content := f.content + b[..|b| - |b| % STORE_CHUNK])]
    {
      ghost var b, f := stream.rest, files[id];
      var readSize := 0;
      assert f.content + b[..0] == f.content;
      while readSize < dataSize
        invariant 0 <= readSize <= dataSize && readSize <= |b| && (readSize % STORE_CHUNK == 0 || readSize == dataSize)
        invariant stream.rest == b[readSize..]
        invariant files == old(files)[id := f.(content := f.content + b[..readSize])]
      {
        var chunkSize := if dataSize - readSize > STORE_CHUNK then STORE_CHUNK else dataSize - readSize;
        var buffer := stream.ReadExact(chunkSize);
        if buffer.None? {
          WholeChunks(|b|, readSize);
          return false;
        }
        assert b[..readSize + chunkSize] == b[..readSize] + buffer.value;
        assert f.content + b[..readSize] + buffer.value == f.content + (b[..readSize] + buffer.value);
        readSize := readSize + chunkSize;
        files := files[id := files[id].(content := files[id].content + buffer.value)];
        NextChunk(readSize - chunkSize);
      }
      return true;
    }

    /** The body of the record loop: the id it stored, or how the loop ends. */
    method StoreNext(ghost ids: seq<string>, stream: InStream, out: OutStream) returns (r: Stop)
      modifies this, stream, out`sent
      ensures match StoreRecord(Store(old(files), old(out.sent), ids), old(stream.rest))
        case Stored(s, rest) => r.Continue? && s == Store(files, out.sent, ids + [r.id]) && stream.rest == rest
        case Ended => r == Return(true) && files == old(files) && out.sent == old(out.sent)
        case Broken(s) => r == Return(false) && s == Store(files, out.sent, ids)
    {
      hide ReadMessage, SizeFrom, Append;
      var lengthBuf := stream.ReadExact(4);
      if lengthBuf.None? {
        return Return(true);
      }
      var length := SizeFrom(lengthBuf.value);
      var buffer := stream.ReadExact(length);
      if buffer.None? {
        return Return(false);
      }
      var metadata := ReadMessage(buffer.value);
      if metadata.None? || metadata.value.id.None? {
        return Return(false);
      }
      var dataId := metadata.value.id.value;
      AppendTwice(files, dataId, buffer.value);
      files := Append(files, dataId, buffer.value, []);
      var stored := StoreContent(dataId, metadata.value.size, stream);
      if !stored {
        return Return(false);
      }
      Associative(out.sent, lengthBuf.value, buffer.value);
      out.WriteAll(lengthBuf.value);
      out.WriteAll(buffer.value);
      return Continue(dataId);
    }

    method StoreData(stream: InStream, out: OutStream) returns (dataIds: seq<string>, ok: bool)
      modifies this, stream, out`sent
      ensures var (s, ended) := StoreAll(Store(old(files), old(out.sent), []), old(stream.rest));
        files == s.files && out.sent == s.echo && dataIds == s.ids && ok == ended
    {
      hide StoreRecord;
      dataIds := [];
      while true
        invariant StoreAll(Store(files, out.sent, dataIds), stream.rest) == StoreAll(Store(old(files), old(out.sent), []), old(stream.rest))
        decreases |stream.rest|
      {
        var next := StoreNext(dataIds, stream, out);
        match next {
          case Continue(id) => dataIds := dataIds + [id];
          case Return(ended) => return dataIds, ended;
        }
      }
    }

    /** The read loop of serve_data_v1; a read may give any part of the chunk asked for. */
    method ServeContent(content: seq<Byte>, out: OutStream)
      modifies out`sent
      ensures out.sent == old(out.sent) + content
    {
      var written := 0;
      assert old(out.sent) + content[..0] == old(out.sent);
      while written < |content|
        invariant 0 <= written <= |content|
        invariant out.sent == old(out.sent) + content[..written]
      {
        var n: nat :| 1 <= n <= SERVE_CHUNK && written + n <= |content|;
        out.WriteAll(content[written..written + n]);
        assert content[..written + n] == content[..written] + content[written..written + n];
        written := written + n;
      }
      assert content[..written] == content;
    }

    method ServeFile(file: File, filter: Filter, out: OutStream) returns (ok: bool)
      modifies out`sent
      ensures match Transfer.ServeFile(file, filter)
        case None => !ok && out.sent == old(out.sent)
        case Some(bytes) => ok && out.sent == old(out.sent) + bytes
    {
      hide ReadMessage, SizeBytes;
      var metadata := ReadMessage(file.metadata);
      assert out.sent + [] == out.sent;
      if metadata.None? {
        return false;
      }
      if !filter.matches(metadata.value.name) {
        return true;
      }
      if filter.ids != [] {
        if metadata.value.id.None? {
          return false;
        }
        if metadata.value.id.value !in filter.ids {
          return true;
        }
      }
      var lengthBuf := SizeBytes(|file.metadata|);
      out.WriteAll(lengthBuf);
      out.WriteAll(file.metadata);
      ServeContent(file.content, out);
      Associative(old(out.sent), lengthBuf, file.metadata);
      Associative(old(out.sent), lengthBuf + file.metadata, file.content);
      return true;
    }

    method ServeData(order: seq<string>, filter: Filter, out: OutStream) returns (ok: bool)
      requires IsOrder(order, files.Keys)
      modifies out`sent
      ensures ok == Transfer.ServeAll(files, order, filter).Some?
      ensures ok ==> out.sent == old(out.sent) + Transfer.ServeAll(files, order, filter).value
    {
      hide Transfer.ServeFile;
      assert forall i | 0 <= i < |order| :: order[i] in order;
      var k := 0;
      assert out.sent + [] == out.sent;
      while k < |order|
        invariant 0 <= k <= |order|
        invariant ServeAll(files, order[..k], filter).Some?
        invariant out.sent == old(out.sent) + ServeAll(files, order[..k], filter).value
      {
        assert order[..k + 1][..k] == order[..k];
        var served := ServeFile(files[order[k]], filter, out);
        if !served {
          ServeStops(files, order, filter, k);
          return false;
        }
        Associative(old(out.sent), ServeAll(files, order[..k], filter).value, Transfer.ServeFile(files[order[k]], filter).value);
        k := k + 1;
      }
      assert order[..k] == order;
      return true;
    }
  }

  lemma WholeChunks(n: nat, readSize: nat)
    requires readSize % STORE_CHUNK == 0 && readSize <= n < readSize + STORE_CHUNK
    ensures n - n % STORE_CHUNK == readSize
  {
  }

  lemma NextChunk(readSize: nat)
    ensures readSize % STORE_CHUNK == 0 ==> (readSize + STORE_CHUNK) % STORE_CHUNK == 0
  {
  }

  /** Appending the metadata first and the content after it is appending both. */
  lemma AppendTwice(files: map<string, File>, id: string, metadata: seq<Byte>)
    ensures var mid := Append(files, id, metadata, []);
      && id in mid
      && forall content :: mid[id := mid[id].(content := mid[id].content + content)] == Append(files, id, metadata, content)
  {
    var mid := Append(files, id, metadata, []);
    assert mid[id].content == FileOf(files, id).content;
    forall content
      ensures mid[id := mid[id].(content := mid[id].content + content)] == Append(files, id, metadata, content)
    {
    }
  }

  lemma {:induction false} ServeStops(files: map<string, File>, order: seq<string>, filter: Filter, k: nat)
    requires k < |order| && forall id | id in order :: id in files
    requires Transfer.ServeFile(files[order[k]], filter).None?
    ensures ServeAll(files, order, filter).None?
    decreases |order|
  {
    hide Transfer.ServeFile;
    var n := |order| - 1;
    if k < n {
      ServeStops(files, order[..n], filter, k);
    }
  }
}
