/** Store and forward is the identity, and the echoes acknowledge exactly what was stored. */
module TransferProperties {
  import opened Wrappers
  import opened Messages
  import opened Orders
  import opened Wire
  import opened Codec
  import opened DataCodec
  import opened Framing
  import opened Transfer

  // ---------- One record ----------

  ghost function MessageOf(u: Upload): seq<Byte>
    requires Sendable(u)
  {
    Message(u.metadata, u.order)
  }

  ghost function AfterOne(s: Store, u: Upload): Store
    requires Sendable(u)
  {
    Store(Append(s.files, IdOf(u), MessageOf(u), u.content), s.echo + Frame(MessageOf(u)), s.ids + [IdOf(u)])
  }

  lemma FrontOfRecord(u: Upload, more: seq<Byte>)
    requires Sendable(u)
    ensures var message := MessageOf(u);
      && RecordBytes(u) + more == SizeBytes(|message|) + (message + (u.content + more))
      && SizeFrom(SizeBytes(|message|)) == |message|
  {
    SizeRoundTrip(|MessageOf(u)|);
    hide SizeBytes, SizeFrom, Message, IsOrder;
  }

  lemma Taken(a: seq<Byte>, b: seq<Byte>)
    ensures Take(a + b, |a|) == Some((a, b))
  {
  }

  /** A record that is there as a whole is stored, echoed and counted, and nothing after it is touched. */
  lemma StoreOneRecord(s: Store, u: Upload, more: seq<Byte>)
    requires Sendable(u)
    ensures StoreRecord(s, RecordBytes(u) + more) == Stored(AfterOne(s, u), more)
  {
    FrontOfRecord(u, more);
    MessageRoundTrip(u.metadata, u.order);
    hide RecordBytes, SizeBytes, SizeFrom, Message, IsOrder, ReadMessage, Append, Take;
    var message := MessageOf(u);
    Taken(SizeBytes(|message|), message + (u.content + more));
    Taken(message, u.content + more);
    Taken(u.content, more);
  }

  ghost function AfterAll(s: Store, us: seq<Upload>): Store
    requires AllSendable(us)
    decreases |us|
  {
    if us == [] then s else AfterAll(AfterOne(s, us[0]), us[1..])
  }

  /** No byte is lost between records: the whole upload is stored and the stream ends cleanly. */
  lemma {:induction false} StoreUploads(s: Store, us: seq<Upload>)
    requires AllSendable(us)
    ensures StoreAll(s, UploadBytes(us)) == (AfterAll(s, us), true)
    decreases |us|
  {
    hide Ordered, Sendable, RecordBytes, StoreRecord, AfterOne;
    if us == [] {
      NothingToStore(s);
    } else {
      StoreOneRecord(s, us[0], UploadBytes(us[1..]));
      StoreUploads(AfterOne(s, us[0]), us[1..]);
    }
  }

  lemma NothingToStore(s: Store)
    ensures StoreRecord(s, []) == Ended
  {
  }

  // ---------- The files ----------

  ghost predicate DistinctIds(us: seq<Upload>) {
    forall i, j | 0 <= i < j < |us| :: IdOf(us[i]) != IdOf(us[j])
  }

  ghost predicate FreshIds(files: map<string, File>, us: seq<Upload>) {
    forall i | 0 <= i < |us| :: IdOf(us[i]) !in files
  }

  function Ids(us: seq<Upload>): set<string> {
    set i | 0 <= i < |us| :: IdOf(us[i])
  }

  /** The files hold exactly these uploads, each under its own id. */
  ghost predicate Holds(files: map<string, File>, us: seq<Upload>)
    requires AllSendable(us)
  {
    files.Keys == Ids(us) && forall i | 0 <= i < |us| :: IdOf(us[i]) in files && files[IdOf(us[i])] == File(MessageOf(us[i]), us[i].content)
  }

  lemma {:induction false} FilesAfter(s: Store, us: seq<Upload>)
    requires AllSendable(us) && DistinctIds(us) && FreshIds(s.files, us)
    ensures var files := AfterAll(s, us).files;
      && files.Keys == s.files.Keys + Ids(us)
      && (forall id | id in s.files :: files[id] == s.files[id])
      && forall i | 0 <= i < |us| :: IdOf(us[i]) in files && files[IdOf(us[i])] == File(MessageOf(us[i]), us[i].content)
    decreases |us|
  {
    hide Ordered, Sendable, Message, Frame;
    if us == [] {
      assert Ids(us) == {};
    } else {
      var s1 := AfterOne(s, us[0]);
      assert forall i | 0 <= i < |us| - 1 :: us[1..][i] == us[i + 1];
      assert [] + MessageOf(us[0]) == MessageOf(us[0]) && [] + us[0].content == us[0].content;
      assert FreshIds(s1.files, us[1..]);
      FilesAfter(s1, us[1..]);
      assert Ids(us) == {IdOf(us[0])} + Ids(us[1..]) by { IdsCons(us); }
      forall i | 0 <= i < |us|
        ensures var files := AfterAll(s, us).files;
          IdOf(us[i]) in files && files[IdOf(us[i])] == File(MessageOf(us[i]), us[i].content)
      {
        if i > 0 { assert us[i] == us[1..][i - 1]; }
      }
    }
  }

  lemma IdsCons(us: seq<Upload>)
    requires us != []
    ensures Ids(us) == {IdOf(us[0])} + Ids(us[1..])
  {
  }

  // ---------- Serving and downloading ----------

  function Sent(u: Upload): Download {
    Download(u.metadata, u.content)
  }

  function AllSent(us: seq<Upload>): (r: seq<Download>)
    ensures |r| == |us| && forall i | 0 <= i < |us| :: r[i] == Sent(us[i])
  {
    seq(|us|, i requires 0 <= i < |us| => Sent(us[i]))
  }

  lemma {:induction false} UploadAppend(us: seq<Upload>, vs: seq<Upload>)
    requires AllOrdered(us) && AllOrdered(vs)
    ensures AllOrdered(us + vs) && UploadBytes(us + vs) == UploadBytes(us) + UploadBytes(vs)
    decreases |us|
  {
    hide Ordered, Sendable, RecordBytes;
    if us == [] {
      assert us + vs == vs;
    } else {
      UploadAppend(us[1..], vs);
      assert (us + vs)[1..] == us[1..] + vs;
      assert (us + vs)[0] == us[0];
    }
  }

  /** Downloading what was uploaded gives the records back, in order. */
  lemma {:induction false} DownloadUploads(us: seq<Upload>)
    requires AllSendable(us)
    ensures DownloadAll(UploadBytes(us)) == Some(AllSent(us))
    decreases |us|
  {
    hide *;
    if us == [] {
      assert AllSent(us) == [];
      NothingSent();
    } else {
      UploadBytesIs(us);
      DownloadOne(us[0], UploadBytes(us[1..]));
      DownloadUploads(us[1..]);
      assert AllSent(us) == [Sent(us[0])] + AllSent(us[1..]);
    }
  }

  lemma NothingSent()
    ensures UploadBytes([]) == [] && DownloadAll([]) == Some([])
  {
  }

  lemma UploadBytesIs(us: seq<Upload>)
    requires AllSendable(us) && us != []
    ensures Sendable(us[0]) && AllSendable(us[1..]) && UploadBytes(us) == RecordBytes(us[0]) + UploadBytes(us[1..])
  {
  }

  lemma DownloadOne(u: Upload, more: seq<Byte>)
    requires Sendable(u)
    ensures DownloadAll(RecordBytes(u) + more) ==
      match DownloadAll(more)
      case None => None
      case Some(rest) => Some([Sent(u)] + rest)
  {
    var message := MessageOf(u);
    FrameRoundTrip(message, u.content + more);
    MessageRoundTrip(u.metadata, u.order);
    assert RecordBytes(u) + more == Frame(message) + (u.content + more);
    assert RecordBytes(u) + more != [];
    hide RecordBytes, Frame, ReadFrame, Message, IsOrder, ReadMessage, Take;
    Taken(u.content, more);
  }

  /** The upload with this id. */
  ghost function Pick(us: seq<Upload>, id: string): (u: Upload)
    requires id in Ids(us)
    ensures u in us && IdOf(u) == id
  {
    var i :| 0 <= i < |us| && IdOf(us[i]) == id;
    us[i]
  }

  /** The selected uploads in the order in which the directory lists them. */
  ghost function Served(us: seq<Upload>, order: seq<string>, filter: Filter): (vs: seq<Upload>)
    requires forall id | id in order :: id in Ids(us)
    ensures forall v | v in vs :: v in us
    decreases |order|
  {
    if order == [] then []
    else
      var u := Pick(us, order[|order| - 1]);
      Served(us, order[..|order| - 1], filter) + if Selected(filter, u.metadata) then [u] else []
  }

  lemma AllOf(us: seq<Upload>, vs: seq<Upload>)
    requires AllSendable(us) && forall v | v in vs :: v in us
    ensures AllSendable(vs)
  {
    hide Ordered, Sendable;
    forall i | 0 <= i < |vs|
      ensures Ordered(vs[i]) && Sendable(vs[i])
    {
      assert vs[i] in us;
    }
  }

  lemma HeldFile(files: map<string, File>, us: seq<Upload>, id: string)
    requires AllSendable(us) && Holds(files, us) && id in Ids(us)
    ensures var u := Pick(us, id); Sendable(u) && id in files && files[id] == File(MessageOf(u), u.content)
  {
  }

  lemma HeldIds(files: map<string, File>, us: seq<Upload>)
    requires AllSendable(us) && Holds(files, us)
    ensures files.Keys == Ids(us)
  {
  }

  lemma ServeHeldFile(u: Upload, filter: Filter)
    requires Sendable(u)
    ensures ServeFile(File(MessageOf(u), u.content), filter) == Some(if Selected(filter, u.metadata) then RecordBytes(u) else [])
  {
    MessageRoundTrip(u.metadata, u.order);
    hide Message, ReadMessage, IsOrder, SizeBytes;
  }

  /** What is served is the upload of the selected records, in directory order. */
  lemma {:induction false} ServeUploads(files: map<string, File>, us: seq<Upload>, order: seq<string>, filter: Filter)
    requires AllSendable(us) && Holds(files, us) && forall id | id in order :: id in Ids(us)
    ensures forall id | id in order :: id in files
    ensures AllSendable(Served(us, order, filter))
    ensures ServeAll(files, order, filter) == Some(UploadBytes(Served(us, order, filter)))
    decreases |order|
  {
    hide *;
    HeldIds(files, us);
    AllOf(us, Served(us, order, filter));
    if order == [] {
      ServedNothing(files, us, filter);
    } else {
      var n := |order| - 1;
      var u := Pick(us, order[n]);
      assert order[n] in order;
      AllOf(us, Served(us, order[..n], filter));
      ServeUploads(files, us, order[..n], filter);
      HeldFile(files, us, order[n]);
      ServeHeldFile(u, filter);
      ServedLast(files, us, order, filter);
      SendableAreOrdered(Served(us, order[..n], filter));
      SendableAreOrdered(Served(us, order, filter));
      SendableIs(u);
      if Selected(filter, u.metadata) {
        OneUpload(u);
        UploadAppend(Served(us, order[..n], filter), [u]);
      } else {
        assert Served(us, order[..n], filter) + [] == Served(us, order[..n], filter);
        assert UploadBytes(Served(us, order[..n], filter)) + [] == UploadBytes(Served(us, order[..n], filter));
      }
    }
  }

  lemma SendableIs(u: Upload)
    requires Sendable(u)
    ensures Ordered(u)
  {
  }

  lemma SendableAreOrdered(us: seq<Upload>)
    requires AllSendable(us)
    ensures AllOrdered(us)
  {
  }

  lemma ServedNothing(files: map<string, File>, us: seq<Upload>, filter: Filter)
    ensures Served(us, [], filter) == [] && ServeAll(files, [], filter) == Some(UploadBytes([]))
  {
  }

  lemma ServedLast(files: map<string, File>, us: seq<Upload>, order: seq<string>, filter: Filter)
    requires order != [] && forall id | id in order :: id in Ids(us) && id in files
    ensures var n := |order| - 1;
      var u := Pick(us, order[n]);
      && Served(us, order, filter) == Served(us, order[..n], filter) + (if Selected(filter, u.metadata) then [u] else [])
      && ServeAll(files, order, filter) ==
           (match ServeAll(files, order[..n], filter)
            case None => None
            case Some(before) =>
              match ServeFile(files[order[n]], filter)
              case None => None
              case Some(more) => Some(before + more))
  {
  }

  lemma OneUpload(u: Upload)
    requires Ordered(u)
    ensures AllOrdered([u]) && UploadBytes([u]) == RecordBytes(u)
  {
  }

  lemma {:induction false} ServedAre(us: seq<Upload>, order: seq<string>, filter: Filter, u: Upload)
    requires DistinctIds(us) && forall id | id in order :: id in Ids(us)
    ensures u in Served(us, order, filter) <==> u in us && IdOf(u) in order && Selected(filter, u.metadata)
    decreases |order|
  {
    hide Selected;
    if order != [] {
      var n := |order| - 1;
      assert order[n] in order;
      assert order == order[..n] + [order[n]];
      ServedAre(us, order[..n], filter, u);
      if u in us && IdOf(u) == order[n] { SameUpload(us, u, Pick(us, order[n])); }
    }
  }

  lemma SameUpload(us: seq<Upload>, u: Upload, v: Upload)
    requires DistinctIds(us) && u in us && v in us && IdOf(u) == IdOf(v)
    ensures u == v
  {
  }

  lemma {:induction false} ServedOnce(us: seq<Upload>, order: seq<string>, filter: Filter)
    requires NoDuplicates(order) && forall id | id in order :: id in Ids(us)
    ensures forall i, j | 0 <= i < j < |Served(us, order, filter)| :: IdOf(Served(us, order, filter)[i]) != IdOf(Served(us, order, filter)[j])
    ensures forall v | v in Served(us, order, filter) :: IdOf(v) in order
    decreases |order|
  {
    hide Selected;
    if order != [] {
      var n := |order| - 1;
      assert order[n] in order && order == order[..n] + [order[n]];
      ServedOnce(us, order[..n], filter);
      var before := Served(us, order[..n], filter);
      forall i | 0 <= i < |before|
        ensures IdOf(before[i]) != order[n]
      {
        assert before[i] in before && IdOf(before[i]) in order[..n];
      }
    }
  }

  /** The query asks for this upload: its name matches, and its id is listed or none is. */
  ghost predicate IsAskedFor(u: Upload, filter: Filter) {
    filter.matches(u.metadata.name) && (filter.ids == [] || exists id | id in filter.ids :: u.metadata.id == Some(id))
  }

  lemma SelectedIsAskedFor(u: Upload, filter: Filter)
    requires u.metadata.id.Some?
    ensures Selected(filter, u.metadata) <==> IsAskedFor(u, filter)
  {
    if Selected(filter, u.metadata) && filter.ids != [] { assert u.metadata.id.value in filter.ids; }
  }

  lemma SendableHasId(us: seq<Upload>, i: nat)
    requires AllSendable(us) && i < |us|
    ensures us[i].metadata.id.Some?
  {
  }

  /**
    Store and forward is the identity. Whatever is uploaded under distinct ids comes back from a data
    node that was empty, whatever order its directory is listed in: exactly the records that the
    query asks for, each once, with metadata and content unchanged.
   */
  lemma StoreAndForward(us: seq<Upload>, order: seq<string>, filter: Filter)
    requires AllSendable(us) && DistinctIds(us)
    requires IsOrder(order, Ids(us))
    ensures var (s, ended) := StoreAll(Store(map[], [], []), UploadBytes(us));
      && ended
      && s.files.Keys == Ids(us)
      && (forall id | id in order :: id in s.files)
      && var served := ServeAll(s.files, order, filter);
         && served.Some?
         && var r := DownloadAll(served.value);
            && r.Some?
            && (forall d :: d in r.value <==>
                  exists i :: 0 <= i < |us| && us[i].metadata == d.metadata && us[i].content == d.content && IsAskedFor(us[i], filter))
            && forall i, j | 0 <= i < j < |r.value| :: r.value[i].metadata.id != r.value[j].metadata.id
  {
    hide *;
    var empty := Store(map[], [], []);
    var s := AfterAll(empty, us);
    StoreUploads(empty, us);
    NothingHeld(us);
    FilesAfter(empty, us);
    HoldsIs(s.files, us);
    OrderIsWithin(order, Ids(us));
    ServeUploads(s.files, us, order, filter);
    var vs := Served(us, order, filter);
    DownloadUploads(vs);
    ServedOnce(us, order, filter);
    SentIdsDiffer(us, vs);
    forall d
      ensures d in AllSent(vs) <==>
        exists i :: 0 <= i < |us| && us[i].metadata == d.metadata && us[i].content == d.content && IsAskedFor(us[i], filter)
    {
      SentAre(us, order, filter, d);
      SentAskedFor(us, filter, d);
    }
  }

  lemma SentAskedFor(us: seq<Upload>, filter: Filter, d: Download)
    requires AllSendable(us)
    ensures (exists i :: 0 <= i < |us| && d == Sent(us[i]) && Selected(filter, us[i].metadata)) <==>
      exists i :: 0 <= i < |us| && us[i].metadata == d.metadata && us[i].content == d.content && IsAskedFor(us[i], filter)
  {
    hide Selected, IsAskedFor, Ordered, Sendable, AllSendable;
    forall i | 0 <= i < |us|
      ensures Selected(filter, us[i].metadata) <==> IsAskedFor(us[i], filter)
      ensures d == Sent(us[i]) <==> us[i].metadata == d.metadata && us[i].content == d.content
    {
      SendableHasId(us, i);
      SelectedIsAskedFor(us[i], filter);
    }
    if i :| 0 <= i < |us| && d == Sent(us[i]) && Selected(filter, us[i].metadata) {
      assert us[i].metadata == d.metadata && us[i].content == d.content && IsAskedFor(us[i], filter);
    }
    if i :| 0 <= i < |us| && us[i].metadata == d.metadata && us[i].content == d.content && IsAskedFor(us[i], filter) {
      assert d == Sent(us[i]) && Selected(filter, us[i].metadata);
    }
  }

  /** A query that matches every name and lists no id brings everything back. */
  lemma EverythingComesBack(us: seq<Upload>, order: seq<string>, filter: Filter)
    requires AllSendable(us) && DistinctIds(us)
    requires IsOrder(order, Ids(us)) && filter.ids == [] && forall name :: filter.matches(name)
    ensures var s := StoreAll(Store(map[], [], []), UploadBytes(us)).0;
      && (forall id | id in order :: id in s.files)
      && var served := ServeAll(s.files, order, filter);
         && served.Some? && DownloadAll(served.value).Some?
         && forall i | 0 <= i < |us| :: Download(us[i].metadata, us[i].content) in DownloadAll(served.value).value
  {
    hide *;
    SendableAreOrdered(us);
    StoreAndForward(us, order, filter);
    var s := StoreAll(Store(map[], [], []), UploadBytes(us)).0;
    var r := DownloadAll(ServeAll(s.files, order, filter).value).value;
    forall i | 0 <= i < |us|
      ensures Download(us[i].metadata, us[i].content) in r
    {
      var d := Download(us[i].metadata, us[i].content);
      AskedForAnyway(us[i], filter);
      assert us[i].metadata == d.metadata && us[i].content == d.content && IsAskedFor(us[i], filter);
    }
  }

  lemma AskedForAnyway(u: Upload, filter: Filter)
    requires filter.ids == [] && forall name :: filter.matches(name)
    ensures IsAskedFor(u, filter)
  {
  }

  /** One directory entry, by what its metadata says: an error, skipped, or served as a frame and the content. */
  lemma ServedEntry(file: File, filter: Filter)
    ensures match ReadMessage(file.metadata)
      case None => ServeFile(file, filter) == None
      case Some(m) =>
        if !filter.matches(m.name) || (filter.ids != [] && m.id.Some? && m.id.value !in filter.ids) then ServeFile(file, filter) == Some([])
        else if filter.ids != [] && m.id.None? then ServeFile(file, filter) == None
        else ServeFile(file, filter) == Some(Frame(file.metadata) + file.content)
  {
    hide ReadMessage, SizeBytes;
  }

  // ---------- Repeated ids and cut contents ----------

  /** The contents of all uploads under an id, one after the other. */
  function ContentsOf(us: seq<Upload>, id: string): seq<Byte> {
    if us == [] then [] else (if us[0].metadata.id == Some(id) then us[0].content else []) + ContentsOf(us[1..], id)
  }

  /**
    Under an id that is used again the content is appended to what is there: every file holds the
    contents of all uploads under its id, in order.
   */
  lemma {:induction false} RepeatedIdsAppend(s: Store, us: seq<Upload>, id: string)
    requires AllSendable(us)
    ensures var s' := StoreAll(s, UploadBytes(us)).0;
      (if id in s'.files then s'.files[id].content else []) == (if id in s.files then s.files[id].content else []) + ContentsOf(us, id)
    decreases |us|
  {
    hide Ordered, Sendable, RecordBytes, StoreRecord, StoreAll, AfterOne, UploadBytes;
    StoreUploads(s, us);
    if us == [] {
      var before := if id in s.files then s.files[id].content else [];
      assert before + [] == before;
    } else {
      AllButFirst(us);
      var s1 := AfterOne(s, us[0]);
      StoreUploads(s1, us[1..]);
      RepeatedIdsAppend(s1, us[1..], id);
      AppendedOne(s, us[0], id);
      var before, one := if id in s.files then s.files[id].content else [], if us[0].metadata.id == Some(id) then us[0].content else [];
      Associative(before, one, ContentsOf(us[1..], id));
    }
  }

  lemma AppendedOne(s: Store, u: Upload, id: string)
    requires Sendable(u)
    ensures var files := AfterOne(s, u).files;
      (if id in files then files[id].content else []) ==
        (if id in s.files then s.files[id].content else []) + (if u.metadata.id == Some(id) then u.content else [])
  {
    hide Message, Frame;
    var before := if id in s.files then s.files[id].content else [];
    assert before + [] == before;
  }

  /** A record whose content is cut off is stored in whole chunks of 10240 bytes, and is not acknowledged. */
  lemma CutContentIsStoredInChunks(s: Store, u: Upload, n: nat)
    requires Sendable(u) && n < |u.content|
    ensures var (s', ended) := StoreAll(s, Frame(MessageOf(u)) + u.content[..n]);
      && !ended && s'.echo == s.echo && s'.ids == s.ids
      && s'.files == Append(s.files, IdOf(u), MessageOf(u), u.content[..n / 10240 * 10240])
  {
    hide *;
    var part := u.content[..n];
    AnnouncedRecord(s, u, part);
    CutAnnounced(s, u, part);
    assert part[..n / 10240 * 10240] == u.content[..n / 10240 * 10240];
    BrokenEnds(s, Frame(MessageOf(u)) + part);
  }

  lemma BrokenEnds(s: Store, b: seq<Byte>)
    requires StoreRecord(s, b).Broken?
    ensures StoreAll(s, b) == (StoreRecord(s, b).store, false)
  {
  }

  lemma AnnouncedRecord(s: Store, u: Upload, part: seq<Byte>)
    requires Sendable(u)
    ensures StoreRecord(s, Frame(MessageOf(u)) + part) ==
      StoreAnnounced(s, SizeBytes(|MessageOf(u)|), MessageOf(u), Some(u.metadata), part)
  {
    hide *;
    var message := MessageOf(u);
    SmallMessage(u);
    MessageRoundTrip(u.metadata, u.order);
    SizeRoundTrip(|message|);
    FrameParts(message, part);
    var header := SizeBytes(|message|);
    Taken(header, message + part);
    Taken(message, part);
    RecordFrom(s, header, message, part);
  }

  lemma SmallMessage(u: Upload)
    requires Sendable(u)
    ensures Ordered(u) && IsOrder(u.order, u.metadata.properties.Keys)
    ensures MessageOf(u) == Message(u.metadata, u.order) && |MessageOf(u)| < TWO_32
    ensures |MessageOf(u)| % 0x1_0000_0000 == |MessageOf(u)|
  {
  }

  lemma RecordFrom(s: Store, header: seq<Byte>, message: seq<Byte>, part: seq<Byte>)
    requires |header| == 4 && SizeFrom(header) == |message|
    requires Take(header + (message + part), 4) == Some((header, message + part)) && Take(message + part, |message|) == Some((message, part))
    ensures StoreRecord(s, header + (message + part)) == StoreAnnounced(s, header, message, ReadMessage(message), part)
  {
    hide SizeFrom, Take, ReadMessage, StoreAnnounced;
  }

  lemma CutAnnounced(s: Store, u: Upload, part: seq<Byte>)
    requires Sendable(u) && |part| < |u.content|
    ensures var r := StoreAnnounced(s, SizeBytes(|MessageOf(u)|), MessageOf(u), Some(u.metadata), part);
      && r.Broken? && r.store.echo == s.echo && r.store.ids == s.ids
      && r.store.files == Append(s.files, IdOf(u), MessageOf(u), part[..|part| / 10240 * 10240])
  {
    hide SizeBytes, Message, IsOrder, ReadMessage, Append, Take;
    NotTaken(part, u.metadata.size);
  }

  lemma FrameParts(message: seq<Byte>, part: seq<Byte>)
    ensures Frame(message) + part == SizeBytes(|message|) + (message + part) && |SizeBytes(|message|)| == 4
  {
    hide SizeBytes;
  }

  lemma NotTaken(b: seq<Byte>, n: nat)
    requires |b| < n
    ensures Take(b, n) == None
  {
  }

  lemma NothingHeld(us: seq<Upload>)
    ensures FreshIds(map[], us)
  {
  }

  lemma HoldsIs(files: map<string, File>, us: seq<Upload>)
    requires AllSendable(us) && files.Keys == {} + Ids(us)
    requires forall i | 0 <= i < |us| :: IdOf(us[i]) in files && files[IdOf(us[i])] == File(MessageOf(us[i]), us[i].content)
    ensures Holds(files, us)
  {
  }

  lemma SentIdsDiffer(us: seq<Upload>, vs: seq<Upload>)
    requires AllSendable(us) && forall v | v in vs :: v in us
    requires forall i, j | 0 <= i < j < |vs| :: IdOf(vs[i]) != IdOf(vs[j])
    ensures forall i, j | 0 <= i < j < |vs| :: AllSent(vs)[i].metadata.id != AllSent(vs)[j].metadata.id
  {
  }

  lemma SentAre(us: seq<Upload>, order: seq<string>, filter: Filter, d: Download)
    requires DistinctIds(us) && IsOrder(order, Ids(us)) && forall id | id in order :: id in Ids(us)
    ensures d in AllSent(Served(us, order, filter)) <==> exists i :: 0 <= i < |us| && d == Sent(us[i]) && Selected(filter, us[i].metadata)
  {
    hide Selected, Served, IsOrder;
    var vs := Served(us, order, filter);
    if d in AllSent(vs) {
      var j :| 0 <= j < |vs| && AllSent(vs)[j] == d;
      assert vs[j] in vs;
      ServedAre(us, order, filter, vs[j]);
      var i :| 0 <= i < |us| && us[i] == vs[j];
      assert d == Sent(us[i]) && Selected(filter, us[i].metadata);
    }
    if i :| 0 <= i < |us| && d == Sent(us[i]) && Selected(filter, us[i].metadata) {
      OrderIsWithin(order, Ids(us));
      ServedAre(us, order, filter, us[i]);
      var j :| 0 <= j < |vs| && vs[j] == us[i];
      assert AllSent(vs)[j] == d;
    }
  }

  // ---------- The echoes ----------

  ghost function EchoBytes(us: seq<Upload>): seq<Byte>
    requires AllSendable(us)
    decreases |us|
  {
    if us == [] then [] else Frame(MessageOf(us[0])) + EchoBytes(us[1..])
  }

  function IdsOf(us: seq<Upload>): (r: seq<string>)
    ensures |r| == |us| && forall i | 0 <= i < |us| :: r[i] == IdOf(us[i])
  {
    seq(|us|, i requires 0 <= i < |us| => IdOf(us[i]))
  }

  function MetadataOf(us: seq<Upload>): (r: seq<Metadata>)
    ensures |r| == |us| && forall i | 0 <= i < |us| :: r[i] == us[i].metadata
  {
    seq(|us|, i requires 0 <= i < |us| => us[i].metadata)
  }

  lemma {:induction false} EchoesAfter(s: Store, us: seq<Upload>)
    requires AllSendable(us)
    ensures AfterAll(s, us).echo == s.echo + EchoBytes(us) && AfterAll(s, us).ids == s.ids + IdsOf(us)
    decreases |us|
  {
    hide Ordered, Sendable, Message, Frame, Append;
    if us == [] {
      assert s.echo + [] == s.echo && s.ids + IdsOf(us) == s.ids;
    } else {
      EchoesAfter(AfterOne(s, us[0]), us[1..]);
      assert s.echo + Frame(MessageOf(us[0])) + EchoBytes(us[1..]) == s.echo + (Frame(MessageOf(us[0])) + EchoBytes(us[1..]));
      assert s.ids + [IdOf(us[0])] + IdsOf(us[1..]) == s.ids + IdsOf(us);
    }
  }

  lemma {:induction false} ReadEchoesOf(us: seq<Upload>)
    requires AllSendable(us)
    ensures ReadEchoes(EchoBytes(us)) == Some(MetadataOf(us))
    decreases |us|
  {
    hide *;
    EchoBytesIs(us);
    if us == [] {
      assert MetadataOf(us) == [];
      NoEchoes();
    } else {
      AllButFirst(us);
      EchoOne(us[0], EchoBytes(us[1..]));
      ReadEchoesOf(us[1..]);
      assert MetadataOf(us) == [us[0].metadata] + MetadataOf(us[1..]);
    }
  }

  lemma NoEchoes()
    ensures ReadEchoes([]) == Some([])
  {
  }

  lemma AllButFirst(us: seq<Upload>)
    requires AllSendable(us) && us != []
    ensures Sendable(us[0]) && AllSendable(us[1..])
  {
  }

  lemma EchoBytesIs(us: seq<Upload>)
    requires AllSendable(us)
    ensures us == [] ==> EchoBytes(us) == []
    ensures us != [] ==> Sendable(us[0]) && AllSendable(us[1..]) && EchoBytes(us) == Frame(MessageOf(us[0])) + EchoBytes(us[1..])
  {
  }

  lemma EchoOne(u: Upload, more: seq<Byte>)
    requires Sendable(u)
    ensures ReadEchoes(Frame(MessageOf(u)) + more) ==
      match ReadEchoes(more)
      case None => None
      case Some(rest) => Some([u.metadata] + rest)
  {
    var message := MessageOf(u);
    FrameRoundTrip(message, more);
    MessageRoundTrip(u.metadata, u.order);
    FrameIsSome(message);
    hide Frame, ReadFrame, Message, IsOrder, ReadMessage;
  }

  lemma FrameIsSome(message: seq<Byte>)
    ensures Frame(message) != []
  {
  }

  /** What the producer reads back is the metadata it uploaded, in order. */
  lemma EchoesAreTheUploadedMetadata(us: seq<Upload>)
    requires AllSendable(us)
    ensures var (s, ended) := StoreAll(Store(map[], [], []), UploadBytes(us));
      ReadEchoes(s.echo) == Some(MetadataOf(us)) && s.ids == IdsOf(us)
  {
    hide *;
    var empty := Store(map[], [], []);
    StoreUploads(empty, us);
    EchoesAfter(empty, us);
    ReadEchoesOf(us);
    assert [] + EchoBytes(us) == EchoBytes(us) && [] + IdsOf(us) == IdsOf(us);
  }

  // ---------- A stream that is cut off ----------

  /** A record of which any byte is missing is not stored as a whole, and not echoed. */
  lemma CutRecord(s: Store, u: Upload, cut: seq<Byte>)
    requires Sendable(u) && cut < RecordBytes(u)
    ensures var r := StoreRecord(s, cut); r.Ended? || (r.Broken? && r.store.echo == s.echo && r.store.ids == s.ids)
  {
    var message := MessageOf(u);
    FrontOfRecord(u, []);
    MessageRoundTrip(u.metadata, u.order);
    assert RecordBytes(u) + [] == RecordBytes(u) && u.content + [] == u.content;
    hide RecordBytes, Message, IsOrder, ReadMessage, SizeFrom, SizeBytes, Append, Take;
    CutTake(SizeBytes(|message|), message + u.content, cut);
    if |cut| >= 4 {
      CutTake(message, u.content, cut[4..]);
      if |cut[4..]| >= |message| {
        CutContent(cut[4..][|message|..], u.content);
      }
    }
  }

  /** Cut off `a + b` somewhere before its end and take `a`. */
  lemma CutTake(a: seq<Byte>, b: seq<Byte>, cut: seq<Byte>)
    requires cut < a + b
    ensures if |cut| < |a| then Take(cut, |a|) == None
            else Take(cut, |a|) == Some((a, cut[|a|..])) && cut[|a|..] < b
  {
    if |cut| >= |a| {
      assert cut[..|a|] == a;
      assert cut[|a|..] <= (a + b)[|a|..] == b;
    }
  }

  lemma CutContent(cut: seq<Byte>, content: seq<Byte>)
    requires cut < content
    ensures Take(cut, |content|) == None
  {
  }

  /** How many of the uploads a stream of `n` bytes holds as a whole. */
  ghost predicate WholeRecords(us: seq<Upload>, n: nat, k: nat)
    requires AllSendable(us)
  {
    k <= |us| && |UploadBytes(us[..k])| <= n && (k < |us| ==> n < |UploadBytes(us[..k + 1])|)
  }

  lemma OneMoreWhole(us: seq<Upload>, n: nat, k: nat)
    requires AllSendable(us) && us != [] && n >= |RecordBytes(us[0])|
    requires WholeRecords(us[1..], n - |RecordBytes(us[0])|, k)
    ensures WholeRecords(us, n, k + 1)
    ensures us[..k + 1] == [us[0]] + us[1..][..k]
  {
    hide Ordered, Sendable, RecordBytes;
    PrefixBytes(us, k);
    if k + 1 < |us| { PrefixBytes(us, k + 1); }
  }

  lemma PrefixBytes(us: seq<Upload>, k: nat)
    requires AllSendable(us) && k < |us|
    ensures us[..k + 1] == [us[0]] + us[1..][..k]
    ensures UploadBytes(us[..k + 1]) == RecordBytes(us[0]) + UploadBytes(us[1..][..k])
  {
    hide *;
    PrefixSendable(us, k);
    UploadBytesIs(us[..k + 1]);
    assert us[..k + 1][1..] == us[1..][..k];
  }

  lemma PrefixSendable(us: seq<Upload>, k: nat)
    requires AllSendable(us) && k < |us|
    ensures AllSendable(us[..k + 1]) && AllSendable(us[1..][..k])
    ensures AllOrdered(us[..k + 1]) && AllOrdered(us[1..][..k]) && Ordered(us[0])
  {
    hide Ordered, Sendable;
  }

  /**
    Wherever the upload is cut off, there is exactly one echo for each record that was read as a
    whole, in order, and none for the one that was not.
   */
  lemma {:induction false} OneEchoPerWholeRecord(s: Store, us: seq<Upload>, cut: seq<Byte>) returns (k: nat)
    requires AllSendable(us) && cut <= UploadBytes(us)
    ensures WholeRecords(us, |cut|, k)
    ensures StoreAll(s, cut).0.echo == s.echo + EchoBytes(us[..k])
    ensures StoreAll(s, cut).0.ids == s.ids + IdsOf(us[..k])
    decreases |us|
  {
    hide *;
    if us != [] { UploadBytesIs(us); }
    if us == [] || |cut| < |RecordBytes(us[0])| {
      k := 0;
      NothingWhole(s, us, cut);
    } else {
      var first := RecordBytes(us[0]);
      var rest := cut[|first|..];
      assert cut == first + rest;
      assert rest <= UploadBytes(us[1..]);
      StoreOneRecord(s, us[0], rest);
      StoreFurther(s, cut, AfterOne(s, us[0]), rest);
      var j := OneEchoPerWholeRecord(AfterOne(s, us[0]), us[1..], rest);
      k := j + 1;
      OneMoreWhole(us, |cut|, j);
      PrefixesSendable(us, j, |cut|);
      EchoesStep(s, us, j);
    }
  }

  lemma StoreFurther(s: Store, b: seq<Byte>, s': Store, rest: seq<Byte>)
    requires StoreRecord(s, b) == Stored(s', rest)
    ensures StoreAll(s, b) == StoreAll(s', rest)
  {
  }

  lemma PrefixesSendable(us: seq<Upload>, j: nat, n: nat)
    requires AllSendable(us) && us != [] && WholeRecords(us, n, j + 1)
    ensures j < |us| && AllSendable(us[..j + 1]) && AllSendable(us[1..][..j]) && Sendable(us[0])
  {
  }

  /** No record begins, or the first is cut. */
  lemma NothingWhole(s: Store, us: seq<Upload>, cut: seq<Byte>)
    requires AllSendable(us) && cut <= UploadBytes(us) && (us == [] || |cut| < |RecordBytes(us[0])|)
    ensures WholeRecords(us, |cut|, 0)
    ensures StoreAll(s, cut).0.echo == s.echo + EchoBytes(us[..0])
    ensures StoreAll(s, cut).0.ids == s.ids + IdsOf(us[..0])
  {
    hide Ordered, Sendable, RecordBytes, StoreRecord, Append, Frame;
    assert s.ids + IdsOf(us[..0]) == s.ids && s.echo + [] == s.echo;
    if us == [] {
      NothingToStore(s);
    } else {
      assert cut < RecordBytes(us[0]);
      CutRecord(s, us[0], cut);
      PrefixBytes(us, 0);
    }
  }

  lemma EchoesStep(s: Store, us: seq<Upload>, j: nat)
    requires AllSendable(us) && us != [] && j < |us| && AllSendable(us[1..][..j]) && AllSendable(us[..j + 1]) && Sendable(us[0])
    ensures var s1 := AfterOne(s, us[0]);
      && s1.echo + EchoBytes(us[1..][..j]) == s.echo + EchoBytes(us[..j + 1])
      && s1.ids + IdsOf(us[1..][..j]) == s.ids + IdsOf(us[..j + 1])
  {
    hide *;
    var more, first := us[1..][..j], us[..j + 1];
    PrefixBytes(us, j);
    AfterOneIs(s, us[0]);
    EchoBytesIs(first);
    assert first[0] == us[0] && first[1..] == more;
    Associative(s.echo, Frame(MessageOf(us[0])), EchoBytes(more));
    assert IdsOf(first) == [IdOf(us[0])] + IdsOf(more);
    assert s.ids + [IdOf(us[0])] + IdsOf(more) == s.ids + ([IdOf(us[0])] + IdsOf(more));
  }

  lemma AfterOneIs(s: Store, u: Upload)
    requires Sendable(u)
    ensures AfterOne(s, u).echo == s.echo + Frame(MessageOf(u)) && AfterOne(s, u).ids == s.ids + [IdOf(u)]
  {
  }
}
