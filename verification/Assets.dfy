/** The volatile inventory of one agent entry: bounded, and numbered so that an identifier once given
    out never names anything else. */
module Assets {
  import opened Limits
  import opened Text

  const MAX_BYTES: nat := 67108864
  const MAX_ITEMS: nat := 16
  const MAX_ENCODED: nat := 1048576
  const MAX_DECODED: nat := 524288

  datatype Encoding = Identity | Other(name: string)

  datatype Row = Row(id: nat, contentType: string, encoding: Encoding, bytes: nat, origin: string)

  type Blob = seq<bv8>

  datatype Item = Item(row: Row, blob: Blob)

  datatype BlobError = Capacity | TooLarge | Unknown | Backing(message: string)

  datatype Result<+T> = Ok(value: T) | Refused(error: BlobError)

  // ---------------------------------------------------------------------------------------------
  // The log an inventory agrees with

  /** One accepted change. */
  datatype Change = Inserted(item: Item) | Removed(id: nat)

  function InsertCount(log: seq<Change>): nat {
    if log == [] then 0
    else InsertCount(log[..|log| - 1]) + if log[|log| - 1].Inserted? then 1 else 0
  }

  /** What a log leaves in the inventory. */
  function Contents(log: seq<Change>): map<nat, Item> {
    if log == [] then map[]
    else
      var before := Contents(log[..|log| - 1]);
      match log[|log| - 1]
      case Inserted(item) => before[item.row.id := item]
      case Removed(id) => before - {id}
  }

  /** Every insertion takes the next number and describes its own blob; only what is there is
      removed. */
  predicate Legal(log: seq<Change>) {
    log == [] ||
    (var before := log[..|log| - 1];
     && Legal(before)
     && match log[|log| - 1]
        case Inserted(item) => item.row.id == InsertCount(before) + 1 && item.row.bytes == |item.blob|
        case Removed(id) => id in Contents(before))
  }

  /** Bytes held by the items numbered up to `upTo`. */
  function Stored(items: map<nat, Item>, upTo: nat): nat {
    if upTo == 0 then 0
    else Stored(items, upTo - 1) + if upTo in items then |items[upTo].blob| else 0
  }

  /** Items in identifier order, as the ordered map lists them. */
  function Listed(items: map<nat, Item>, upTo: nat): seq<Row> {
    if upTo == 0 then []
    else Listed(items, upTo - 1) + if upTo in items then [items[upTo].row] else []
  }

  /** One more blob of a size fits: in number, in bytes, and there is an identifier for it. */
  predicate Room(log: seq<Change>, size: nat) {
    && |Contents(log)| < MAX_ITEMS
    && Stored(Contents(log), InsertCount(log)) + size <= MAX_BYTES
    && InsertCount(log) < U64_MAX
  }

  /** A blob under the next identifier. */
  function Taken(log: seq<Change>, blob: Blob, contentType: string, encoding: Encoding, origin: string): seq<Change> {
    log + [Inserted(Item(Row(InsertCount(log) + 1, contentType, encoding, |blob|, origin), blob))]
  }

  // ---------------------------------------------------------------------------------------------
  // What an operator attaches

  datatype Attached =
    | Attached(id: nat) | BadMime | EncodedTooLong | BadBase64 | DecodedTooLong | Unstored(message: string) | NoRoom

  /** What the host makes of a literal: `decode` is the standard decoder of section 4 of RFC 4648, and
      `refuses` says why a decoded blob cannot be stored, if it cannot. */
  datatype Host = Host(decode: string -> Option<Blob>, refuses: Blob -> Option<string>)

  /** The blob a literal stands for: small enough before and after decoding, and stored by the host. */
  function Literal(encoded: string, host: Host): Option<Blob> {
    if Utf8Length(encoded) > MAX_ENCODED then None
    else match host.decode(encoded)
      case None => None
      case Some(blob) => if |blob| <= MAX_DECODED && host.refuses(blob).None? then Some(blob) else None
  }

  /** Why a literal is refused before the inventory is asked, if it is. */
  function Screened(mime: string, encoded: string, host: Host): Option<Attached> {
    if !ValidMime(mime) then Some(BadMime)
    else if Utf8Length(encoded) > MAX_ENCODED then Some(EncodedTooLong)
    else match host.decode(encoded)
      case None => Some(BadBase64)
      case Some(blob) =>
        if |blob| > MAX_DECODED then Some(DecodedTooLong)
        else match host.refuses(blob)
          case Some(message) => Some(Unstored(message))
          case None => None
  }

  /** What attaching a literal answers, by the literal, the host and the log alone. */
  function Outcome(log: seq<Change>, mime: string, encoded: string, host: Host): Attached {
    match Screened(mime, encoded, host)
    case Some(refusal) => refusal
    case None => if Room(log, |host.decode(encoded).value|) then Attached(InsertCount(log) + 1) else NoRoom
  }

  function AttachedLog(log: seq<Change>, mime: string, encoded: string, host: Host): seq<Change> {
    if Outcome(log, mime, encoded, host).Attached? then
      Taken(log, host.decode(encoded).value, mime, Identity, "console")
    else log
  }

  /** An attachment is taken exactly when the type is valid, both sizes fit, the decoder accepts the
      literal, its blob can be stored and there is room; the log then ends with that blob under the number
      answered, and a refusal leaves it alone. */
  lemma AttachedIff(log: seq<Change>, mime: string, encoded: string, host: Host)
    ensures var a, after := Outcome(log, mime, encoded, host), AttachedLog(log, mime, encoded, host);
      && (a.Attached? <==>
            ValidMime(mime) && Literal(encoded, host).Some? && Room(log, |Literal(encoded, host).value|))
      && (a == BadMime <==> !ValidMime(mime))
      && (forall message :: a == Unstored(message) <==>
            && ValidMime(mime) && Utf8Length(encoded) <= MAX_ENCODED
            && host.decode(encoded).Some? && |host.decode(encoded).value| <= MAX_DECODED
            && host.refuses(host.decode(encoded).value) == Some(message))
      && (a.Attached? ==>
            && |after| == |log| + 1 && after[..|log|] == log
            && after[|log|].Inserted? && after[|log|].item.row.id == a.id
            && Some(after[|log|].item.blob) == Literal(encoded, host)
            && Contents(after) == Contents(log)[a.id := after[|log|].item])
      && (!a.Attached? ==> after == log)
  {
    hide Room, ValidMime;
    var after := AttachedLog(log, mime, encoded, host);
    if after != log {
      assert after[..|after| - 1] == log;
    }
  }

  /** What an attachment leaves to fetch: under the number answered there is the decoded blob of the type
      given, listed as identity-encoded and from the console, and every other number is as it was. */
  lemma AttachedIsFetched(log: seq<Change>, mime: string, encoded: string, host: Host)
    requires Outcome(log, mime, encoded, host).Attached?
    ensures var id, before, after := Outcome(log, mime, encoded, host).id, Contents(log),
                                     Contents(AttachedLog(log, mime, encoded, host));
      && id == InsertCount(log) + 1 && id in after && host.decode(encoded).Some?
      && var blob := host.decode(encoded).value;
         && after[id] == Item(Row(id, mime, Identity, |blob|, "console"), blob)
         && after == before[id := after[id]]
  {
    hide Room, ValidMime;
    var blob := host.decode(encoded).value;
    assert Taken(log, blob, mime, Identity, "console")[..|log|] == log;
  }

  // ---------------------------------------------------------------------------------------------
  // What providers return while a command runs

  datatype Provided =
    | Stores(declared: nat, contentType: string, encoding: Encoding, received: Result<Blob>)
    | Drops(id: nat, pinned: bool)

  function Registered(log: seq<Change>, declared: nat, received: Result<Blob>): Result<nat> {
    if declared > MAX_BYTES then Refused(TooLarge)
    else if received.Refused? then Refused(received.error)
    else if Room(log, |received.value|) then Ok(InsertCount(log) + 1)
    else Refused(Capacity)
  }

  function Effect(log: seq<Change>, p: Provided): seq<Change> {
    match p
    case Stores(declared, contentType, encoding, received) =>
      if Registered(log, declared, received).Ok? then Taken(log, received.value, contentType, encoding, "provider")
      else log
    case Drops(id, pinned) => if id in Contents(log) && !pinned then log + [Removed(id)] else log
  }

  function Worked(log: seq<Change>, provided: seq<Provided>): seq<Change> {
    if provided == [] then log
    else Effect(Worked(log, provided[..|provided| - 1]), provided[|provided| - 1])
  }

  /** What a provider stores is there to fetch, listed as its own; a refusal leaves everything as it was. */
  lemma StoredIsFetched(
      log: seq<Change>, declared: nat, contentType: string, encoding: Encoding, received: Result<Blob>)
    ensures var after := Effect(log, Stores(declared, contentType, encoding, received));
      if declared <= 67108864 && received.Ok? && Room(log, |received.value|) then
        var row := Row(InsertCount(log) + 1, contentType, encoding, |received.value|, "provider");
        Contents(after) == Contents(log)[row.id := Item(row, received.value)]
      else after == log
  {
    hide Room;
    if received.Ok? {
      assert Taken(log, received.value, contentType, encoding, "provider")[..|log|] == log;
    }
  }

  /** What it drops is gone, unless something still pins it. */
  lemma DroppedIsGone(log: seq<Change>, id: nat, pinned: bool)
    ensures Contents(Effect(log, Drops(id, pinned))) == if pinned then Contents(log) else Contents(log) - {id}
  {
    assert (log + [Removed(id)])[..|log|] == log;
  }

  /** What providers do takes effect one by one, the first first. */
  lemma {:induction false} WorkedInOrder(log: seq<Change>, first: Provided, rest: seq<Provided>)
    ensures Worked(log, [first] + rest) == Worked(Effect(log, first), rest)
    decreases |rest|
  {
    hide Effect;
    var all := [first] + rest;
    if rest == [] {
      assert all[..0] == [];
    } else {
      assert all[..|all| - 1] == [first] + rest[..|rest| - 1];
      WorkedInOrder(log, first, rest[..|rest| - 1]);
    }
  }

  // ---------------------------------------------------------------------------------------------
  // The store

  class ConsoleAssets {
    var nextId: nat
    var bytes: nat
    var items: map<nat, Item>
    ghost var log: seq<Change>

    /** The counters and the map say what the log says, and every bound holds. */
    ghost predicate Valid()
      reads this
    {
      && Legal(log)
      && items == Contents(log)
      && nextId == InsertCount(log) <= U64_MAX
      && bytes == Stored(items, nextId) <= MAX_BYTES
      && |items| <= MAX_ITEMS
    }

    constructor ()
      ensures Valid() && log == []
    {
      nextId, bytes, items := 0, 0, map[];
      log := [];
    }

    method Insert(blob: Blob, contentType: string, encoding: Encoding, origin: string) returns (r: Result<nat>)
      requires Valid()
      modifies this
      ensures Valid()
      ensures r.Ok? <==> old(|items| < MAX_ITEMS && bytes + |blob| <= MAX_BYTES && nextId < U64_MAX)
      ensures r == if Room(old(log), |blob|) then Ok(InsertCount(old(log)) + 1) else Refused(Capacity)
      ensures log == if r.Ok? then Taken(old(log), blob, contentType, encoding, origin) else old(log)
    {
      hide Legal, Contents, Stored, InsertCount;
      var len := |blob|;
      if |items| >= MAX_ITEMS || len > MAX_BYTES || bytes > MAX_BYTES - len {
        return Refused(Capacity);
      }
      if nextId == U64_MAX {
        return Refused(Capacity);
      }
      var id := nextId + 1;
      var item := Item(Row(id, contentType, encoding, len, origin), blob);
      TakenIs(log, blob, contentType, encoding, origin);
      nextId := id;
      bytes := bytes + len;
      items := items[id := item];
      log := log + [Inserted(item)];
      r := Ok(id);
    }

    /** `pinned` is whether an invocation still holds the blob. */
    method Remove(id: nat, pinned: bool) returns (r: Result<()>)
      requires Valid()
      modifies this
      ensures Valid()
      ensures r == if id !in old(items) then Refused(Unknown) else if pinned then Refused(Capacity) else Ok(())
      ensures log == if r.Ok? then old(log) + [Removed(id)] else old(log)
    {
      if id !in items {
        return Refused(Unknown);
      }
      if pinned {
        return Refused(Capacity);
      }
      var blob := items[id].blob;
      IdsWithin(log);
      StoredRemove(items, id, nextId);
      Extended(log, Removed(id));
      items := items - {id};
      bytes := bytes - |blob|;
      log := log + [Removed(id)];
      r := Ok(());
    }

    method FetchForCapability(id: nat) returns (r: Result<(string, Blob)>)
      requires Valid()
      ensures r == if id in Contents(log) then Ok((Contents(log)[id].row.contentType, Contents(log)[id].blob))
                   else Refused(Unknown)
    {
      r := if id in items then Ok((items[id].row.contentType, items[id].blob)) else Refused(Unknown);
    }

    method Rows() returns (rows: seq<Row>)
      requires Valid()
      ensures rows == Listed(Contents(log), InsertCount(log))
    {
      rows := [];
      var id := 0;
      while id < nextId
        invariant 0 <= id <= nextId
        invariant rows == Listed(items, id)
      {
        id := id + 1;
        if id in items {
          rows := rows + [items[id].row];
        }
      }
    }

    /** Takes an asset a provider returned; `received` is what its descriptor held. */
    method Register(declared: nat, contentType: string, encoding: Encoding, received: Result<Blob>)
      returns (r: Result<nat>)
      requires Valid()
      modifies this
      ensures Valid()
      ensures r == Registered(old(log), declared, received)
      ensures declared > 67108864 ==> r == Refused(TooLarge)
      ensures declared <= 67108864 && received.Refused? ==> r == Refused(received.error)
      ensures declared <= 67108864 && received.Ok? && !Room(old(log), |received.value|) ==> r == Refused(Capacity)
      ensures r.Ok? <==> declared <= MAX_BYTES && received.Ok? && Room(old(log), |received.value|)
      ensures log == Effect(old(log), Stores(declared, contentType, encoding, received))
    {
      hide Room;
      if declared > MAX_BYTES {
        return Refused(TooLarge);
      }
      if received.Refused? {
        return Refused(received.error);
      }
      r := Insert(received.value, contentType, encoding, "provider");
    }

    /** Attaches an operator's literal. */
    method AttachBase64(mime: string, encoded: string, host: Host) returns (r: Attached)
      requires Valid()
      modifies this
      ensures Valid()
      ensures r == BadMime <==> !ValidMime(mime)
      ensures r.Attached? <==>
        && ValidMime(mime) && Literal(encoded, host).Some?
        && old(|items| < MAX_ITEMS && bytes + |Literal(encoded, host).value| <= MAX_BYTES && nextId < U64_MAX)
      ensures r == Outcome(old(log), mime, encoded, host)
      ensures log == AttachedLog(old(log), mime, encoded, host)
    {
      hide Room, ValidMime, Utf8Length;
      if !ValidMime(mime) {
        return BadMime;
      }
      if Utf8Length(encoded) > MAX_ENCODED {
        return EncodedTooLong;
      }
      var bytes := host.decode(encoded);
      if bytes.None? {
        return BadBase64;
      }
      if |bytes.value| > MAX_DECODED {
        return DecodedTooLong;
      }
      var failure := host.refuses(bytes.value);
      if failure.Some? {
        return Unstored(failure.value);
      }
      var inserted := Insert(bytes.value, mime, Identity, "console");
      r := if inserted.Ok? then Attached(inserted.value) else NoRoom;
    }

    /** Everything the providers of one command return and drop, in order. */
    method Work(provided: seq<Provided>)
      requires Valid()
      modifies this
      ensures Valid() && log == Worked(old(log), provided)
    {
      hide Valid, Effect;
      var i := 0;
      while i < |provided|
        invariant 0 <= i <= |provided| && Valid() && log == Worked(old(log), provided[..i])
      {
        assert provided[..i + 1][..i] == provided[..i];
        match provided[i] {
          case Stores(declared, contentType, encoding, received) =>
            var _ := Register(declared, contentType, encoding, received);
          case Drops(id, pinned) => Drop(id, pinned);
        }
        i := i + 1;
      }
      assert provided[..i] == provided;
    }

    method Drop(id: nat, pinned: bool)
      requires Valid()
      modifies this
      ensures Valid() && log == Effect(old(log), Drops(id, pinned))
    {
      var _ := Remove(id, pinned);
    }
  }

  predicate IsMimeChar(c: char) {
    IsAsciiAlphanumeric(c) || c in "!#$&^_.+-"
  }

  /** `type/subtype`, both non-empty, of media-type characters only. */
  predicate ValidMime(mime: string) {
    && |mime| <= 127
    && exists slash :: 0 < slash < |mime| - 1 && mime[slash] == '/'
         && forall i :: 0 <= i < |mime| && i != slash ==> IsMimeChar(mime[i])
  }

  /** A media type is two words of its characters with a slash between, 127 characters at most. */
  lemma MimeIsValidIff(mime: string)
    ensures ValidMime(mime) <==>
      |mime| <= 127 && exists kind, subtype :: MimeWord(kind) && MimeWord(subtype) && mime == kind + "/" + subtype
  {
    if ValidMime(mime) {
      var slash :| 0 < slash < |mime| - 1 && mime[slash] == '/'
        && forall i :: 0 <= i < |mime| && i != slash ==> IsMimeChar(mime[i]);
      assert MimeWord(mime[..slash]) && MimeWord(mime[slash + 1..]);
      assert mime == mime[..slash] + "/" + mime[slash + 1..];
    }
    if kind, subtype :| MimeWord(kind) && MimeWord(subtype) && mime == kind + "/" + subtype && |mime| <= 127 {
      var slash := |kind|;
      forall i | 0 <= i < |mime| && i != slash ensures IsMimeChar(mime[i]) {
        assert mime[i] == if i < slash then kind[i] else subtype[i - slash - 1];
      }
      assert 0 < slash < |mime| - 1 && mime[slash] == '/';
    }
  }

  predicate MimeWord(s: string) {
    s != "" && forall i :: 0 <= i < |s| ==>
      'a' <= s[i] <= 'z' || 'A' <= s[i] <= 'Z' || '0' <= s[i] <= '9' || s[i] in "!#$&^_.+-"
  }

  // ---------------------------------------------------------------------------------------------
  // What the log promises

  lemma Extended(log: seq<Change>, change: Change)
    ensures (log + [change])[..|log|] == log && (log + [change])[|log|] == change
  {
  }

  lemma {:induction false} IdsWithin(log: seq<Change>)
    requires Legal(log)
    ensures forall id :: id in Contents(log) ==>
      && 0 < id <= InsertCount(log) && Contents(log)[id].row.id == id
      && Contents(log)[id].row.bytes == |Contents(log)[id].blob|
  {
    if log != [] {
      IdsWithin(log[..|log| - 1]);
    }
  }

  lemma {:induction false} StoredAgrees(a: map<nat, Item>, b: map<nat, Item>, upTo: nat)
    requires forall id :: 0 < id <= upTo ==> (id in a <==> id in b) && (id in a ==> a[id] == b[id])
    ensures Stored(a, upTo) == Stored(b, upTo)
  {
    if upTo > 0 {
      StoredAgrees(a, b, upTo - 1);
    }
  }

  lemma StoredUpdate(items: map<nat, Item>, id: nat, item: Item)
    requires id > 0
    ensures Stored(items[id := item], id) == Stored(items, id - 1) + |item.blob|
  {
    StoredAgrees(items[id := item], items, id - 1);
  }

  /** Taking a blob adds its bytes and one item under a new number. */
  lemma TakenIs(log: seq<Change>, blob: Blob, contentType: string, encoding: Encoding, origin: string)
    requires Legal(log)
    ensures var after, id := Taken(log, blob, contentType, encoding, origin), InsertCount(log) + 1;
      && Legal(after) && InsertCount(after) == id && id !in Contents(log)
      && Contents(after) == Contents(log)[id := Item(Row(id, contentType, encoding, |blob|, origin), blob)]
      && Stored(Contents(after), id) == Stored(Contents(log), id - 1) + |blob|
  {
    var id := InsertCount(log) + 1;
    var item := Item(Row(id, contentType, encoding, |blob|, origin), blob);
    IdsWithin(log);
    StoredUpdate(Contents(log), id, item);
    Extended(log, Inserted(item));
  }

  lemma {:induction false} StoredRemove(items: map<nat, Item>, id: nat, upTo: nat)
    requires 0 < id <= upTo && id in items
    ensures Stored(items - {id}, upTo) + |items[id].blob| == Stored(items, upTo)
  {
    if id == upTo {
      StoredAgrees(items - {id}, items, upTo - 1);
    } else {
      StoredRemove(items, id, upTo - 1);
    }
  }

  lemma {:induction false} PrefixIsLegal(log: seq<Change>, n: nat)
    requires Legal(log) && n <= |log|
    ensures Legal(log[..n]) && InsertCount(log[..n]) <= InsertCount(log)
  {
    if n < |log| {
      PrefixIsLegal(log[..|log| - 1], n);
      assert log[..|log| - 1][..n] == log[..n];
    } else {
      assert log[..n] == log;
    }
  }

  /** Identifiers strictly increase over a run, so none is ever given out twice. */
  lemma IdsIncrease(log: seq<Change>, i: nat, j: nat)
    requires Legal(log) && i < j < |log| && log[i].Inserted? && log[j].Inserted?
    ensures 0 < log[i].item.row.id < log[j].item.row.id
  {
    PrefixIsLegal(log, i + 1);
    PrefixIsLegal(log, j + 1);
    PrefixIsLegal(log, j);
    PrefixIsLegal(log[..j], i + 1);
    assert log[..j][..i + 1] == log[..i + 1];
    assert log[..i + 1][..i] == log[..i] && log[..j + 1][..j] == log[..j];
  }

  /** A removed identifier resolves never again, whatever is inserted later. */
  lemma {:induction false} RemovedNeverResolves(log: seq<Change>, i: nat, n: nat)
    requires Legal(log) && i < n <= |log| && log[i].Removed?
    ensures log[i].id !in Contents(log[..n])
    decreases n
  {
    PrefixIsLegal(log, n);
    assert log[..n][..n - 1] == log[..n - 1];
    if i < n - 1 {
      RemovedNeverResolves(log, i, n - 1);
      PrefixIsLegal(log, i);
      PrefixIsLegal(log, n - 1);
      PrefixIsLegal(log[..n - 1], i + 1);
      assert log[..n - 1][..i + 1] == log[..i + 1] && log[..i + 1][..i] == log[..i];
      PrefixIsLegal(log, i + 1);
      IdsWithin(log[..i]);
    }
  }

  /** An item still there resolves to exactly what was inserted under its identifier. */
  lemma {:induction false} ResolvesToInserted(log: seq<Change>, id: nat)
    requires Legal(log) && id in Contents(log)
    ensures exists i :: 0 <= i < |log| && log[i] == Inserted(Contents(log)[id]) && log[i].item.row.id == id
  {
    var before := log[..|log| - 1];
    var last := log[|log| - 1];
    IdsWithin(log);
    if last.Inserted? && last.item.row.id == id {
      assert log[|log| - 1] == Inserted(Contents(log)[id]);
    } else {
      ResolvesToInserted(before, id);
      var i :| 0 <= i < |before| && before[i] == Inserted(Contents(before)[id]) && before[i].item.row.id == id;
      assert log[i] == before[i];
    }
  }

  /** The listing holds a row exactly when an item of that row is in the inventory. */
  lemma {:induction false} ListingIsComplete(items: map<nat, Item>, upTo: nat, row: Row)
    requires forall id :: id in items ==> items[id].row.id == id
    ensures row in Listed(items, upTo) <==> 0 < row.id <= upTo && row.id in items && items[row.id].row == row
  {
    if upTo > 0 {
      ListingIsComplete(items, upTo - 1, row);
    }
  }

  /** The listing is in strictly increasing identifier order, so no row is listed twice. */
  lemma {:induction false} ListingIsOrdered(items: map<nat, Item>, upTo: nat, i: nat, j: nat)
    requires forall id :: id in items ==> items[id].row.id == id
    requires i < j < |Listed(items, upTo)|
    ensures Listed(items, upTo)[i].id < Listed(items, upTo)[j].id
  {
    var before := Listed(items, upTo - 1);
    if j < |before| {
      ListingIsOrdered(items, upTo - 1, i, j);
    } else {
      ListingIsComplete(items, upTo - 1, before[i]);
    }
  }
}
