/**
  core/domain/src/datastore/remote.rs and core/examples/data-node/src/main.rs: records of metadata and
  content on the way from a producer to a data node's files, and from there to a consumer.
 */
module Transfer {
  import opened Wrappers
  import opened Messages
  import opened Orders
  import opened Wire
  import opened Codec
  import opened DataCodec
  import opened Framing

  // ---------- What is sent ----------

  /** Data to upload, with the order in which the properties of its metadata are iterated. */
  datatype Upload = Upload(metadata: Metadata, content: seq<Byte>, order: seq<string>)

  function Message(m: Metadata, order: seq<string>): seq<Byte>
    requires IsOrder(order, m.properties.Keys)
  {
    Delimited(MetadataSize(m, order), MetadataBody(m, order))
  }

  function ReadMessage(b: seq<Byte>): Option<Metadata> {
    Undelimited(b, NO_METADATA, MetadataArm)
  }

  ghost predicate Ordered(u: Upload) {
    IsOrder(u.order, u.metadata.properties.Keys)
  }

  ghost predicate AllOrdered(us: seq<Upload>) {
    forall i | 0 <= i < |us| :: Ordered(us[i])
  }

  /** What write_to_stream asserts. */
  predicate SizeMatches(u: Upload) {
    u.metadata.size == |u.content|
  }

  /** The size is right, the id is set, as push sees to, and a u32 can hold the length of the message. */
  ghost predicate Sendable(u: Upload) {
    && Ordered(u)
    && u.metadata.id.Some?
    && SizeMatches(u)
    && |Message(u.metadata, u.order)| < TWO_32
  }

  ghost predicate AllSendable(us: seq<Upload>) {
    AllOrdered(us) && forall i | 0 <= i < |us| :: Sendable(us[i])
  }

  function IdOf(u: Upload): string {
    u.metadata.id.GetOr("")
  }

  ghost function RecordBytes(u: Upload): seq<Byte>
    requires Ordered(u)
  {
    Frame(Message(u.metadata, u.order)) + u.content
  }

  ghost function UploadBytes(us: seq<Upload>): seq<Byte>
    requires AllOrdered(us)
  {
    if us == [] then [] else RecordBytes(us[0]) + UploadBytes(us[1..])
  }

  lemma MessageRoundTrip(m: Metadata, order: seq<string>)
    requires IsOrder(order, m.properties.Keys) && |Message(m, order)| < TWO_32
    ensures ReadMessage(Message(m, order)) == Some(m)
  {
    hide *;
    SmallBody(m, order);
    MetadataSizeIsExact(m, order);
    MetadataRoundTrip(m, order);
    ReadMetadataIs(MetadataBody(m, order));
    MessageIs(m, order);
    DelimitedRoundTrip(MetadataBody(m, order), [], NO_METADATA, MetadataArm);
    assert Message(m, order) + [] == Message(m, order);
  }

  lemma SmallBody(m: Metadata, order: seq<string>)
    requires IsOrder(order, m.properties.Keys) && |Message(m, order)| < TWO_32
    ensures |MetadataBody(m, order)| < TWO_32 && |MetadataBody(m, order)| < TWO_64
  {
  }

  lemma ReadMetadataIs(b: seq<Byte>)
    ensures ReadMetadata(b) == Absorb(b, NO_METADATA, MetadataArm)
  {
  }

  lemma MessageIs(m: Metadata, order: seq<string>)
    requires IsOrder(order, m.properties.Keys)
    ensures Message(m, order) == Delimited(MetadataSize(m, order), MetadataBody(m, order))
    ensures ReadMessage(Message(m, order)) == Undelimited(Message(m, order), NO_METADATA, MetadataArm)
  {
  }

  // ---------- The data node stores ----------

  const STORE_CHUNK: nat := 10 * 1024

  datatype File = File(metadata: seq<Byte>, content: seq<Byte>)

  /** The two files of every data id, the bytes echoed to the producer, and the ids stored so far. */
  datatype Store = Store(files: map<string, File>, echo: seq<Byte>, ids: seq<string>)

  function FileOf(files: map<string, File>, id: string): File {
    if id in files then files[id] else File([], [])
  }

  function Append(files: map<string, File>, id: string, metadata: seq<Byte>, content: seq<Byte>): map<string, File> {
    var f := FileOf(files, id);
    files[id := File(f.metadata + metadata, f.content + content)]
  }

  /** `Ended` is the end of the stream where a record would begin; `Broken` is every error. */
  datatype StoreStep = Stored(store: Store, rest: seq<Byte>) | Ended | Broken(store: Store)

  function StoreRecord(s: Store, b: seq<Byte>): (r: StoreStep)
    ensures r.Stored? ==> |r.rest| < |b|
  {
    match Take(b, 4)
    case None => Ended
    case Some((header, afterHeader)) =>
      match Take(afterHeader, SizeFrom(header))
      case None => Broken(s)
      case Some((buffer, afterMetadata)) => StoreAnnounced(s, header, buffer, ReadMessage(buffer), afterMetadata)
  }

  /** The metadata is known; the content comes next. */
  function StoreAnnounced(s: Store, header: seq<Byte>, buffer: seq<Byte>, metadata: Option<Metadata>, b: seq<Byte>): (r: StoreStep)
    ensures r.Stored? ==> |r.rest| <= |b|
  {
    if metadata.None? || metadata.value.id.None? then Broken(s)
    else
      var id := metadata.value.id.value;
      match Take(b, metadata.value.size)
      case None =>
        Broken(s.(files := Append(s.files, id, buffer, b[..|b| - |b| % STORE_CHUNK])))
      case Some((content, rest)) =>
        Stored(Store(Append(s.files, id, buffer, content), s.echo + (header + buffer), s.ids + [id]), rest)
  }

  /** Records until the stream ends or breaks; the flag says that it ended. */
  function StoreAll(s: Store, b: seq<Byte>): (Store, bool)
    decreases |b|
  {
    match StoreRecord(s, b)
    case Stored(s', rest) => StoreAll(s', rest)
    case Ended => (s, true)
    case Broken(s') => (s', false)
  }

  // ---------- The data node serves ----------

  /** The filters of a query: the regular expression as the names it matches, and the listed ids. */
  datatype Filter = Filter(matches: string -> bool, ids: seq<string>)

  predicate Selected(filter: Filter, m: Metadata) {
    filter.matches(m.name) && (filter.ids == [] || m.id.GetOr("") in filter.ids)
  }

  /** One directory entry: its bytes, none when it is filtered out, and None for an error. */
  function ServeFile(file: File, filter: Filter): Option<seq<Byte>> {
    match ReadMessage(file.metadata)
    case None => None
    case Some(m) =>
      if !filter.matches(m.name) then Some([])
      else if filter.ids != [] && m.id.None? then None
      else if Selected(filter, m) then Some(SizeBytes(|file.metadata|) + file.metadata + file.content)
      else Some([])
  }

  /** `order` is the order in which the directory is listed. */
  function ServeAll(files: map<string, File>, order: seq<string>, filter: Filter): Option<seq<Byte>>
    requires forall id | id in order :: id in files
    decreases |order|
  {
    if order == [] then Some([])
    else
      match ServeAll(files, order[..|order| - 1], filter)
      case None => None
      case Some(before) =>
        match ServeFile(files[order[|order| - 1]], filter)
        case None => None
        case Some(more) => Some(before + more)
  }

  // ---------- The consumer downloads ----------

  datatype Download = Download(metadata: Metadata, content: seq<Byte>)

  /** read_from_stream: a header of 4 bytes, or none at the end; None stands for its panics. */
  function DownloadAll(b: seq<Byte>): Option<seq<Download>>
    decreases |b|
  {
    if b == [] then Some([])
    else
      match ReadFrame(b)
      case None => None
      case Some((buffer, afterMetadata)) =>
        match ReadMessage(buffer)
        case None => None
        case Some(m) =>
          match Take(afterMetadata, m.size)
          case None => None
          case Some((content, rest)) =>
            match DownloadAll(rest)
            case None => None
            case Some(more) => Some([Download(m, content)] + more)
  }

  /** The echoes as the producer reads them: framed metadata, one after the other. */
  function ReadEchoes(b: seq<Byte>): Option<seq<Metadata>>
    decreases |b|
  {
    if b == [] then Some([])
    else
      match ReadFrame(b)
      case None => None
      case Some((buffer, rest)) =>
        match ReadMessage(buffer)
        case None => None
        case Some(m) =>
          match ReadEchoes(rest)
          case None => None
          case Some(more) => Some([m] + more)
  }
}
