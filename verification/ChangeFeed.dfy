/** The change feed, from the raw record a server sent to the page the engine acts on
    (crates/misty-sync/src/wire.rs).  Text decoding (JSON, hex, base64) happens before; what is left
    is which records are accepted. */
module ChangeFeeds {
  import opened Foundations
  import VaultItem

  type ItemId = VaultItem.ItemId

  const MAX_ENVELOPE_LEN := 528 * 1024
  const MAX_CHANGES_PER_PAGE := 512
  const MAX_SEQ := 0x1_0000_0000_0000
  const MAX_VERSION_LEN := 128

  const QUOTE: byte := 0x22

  datatype WireError =
    | Malformed
    | ResponseTooLarge
    | EnvelopeTooLarge
    | SeqOutOfRange(offered: int)
    | FeedOutOfOrder(offered: int, previous: int)
    | UnusableVersionToken

  /** A base64 field: how long its text is, and its bytes if it is base64 at all. */
  datatype Blob = Blob(textLength: nat, bytes: Option<Bytes>)

  /** `itemId` is absent when missing or not exactly sixteen bytes of hex; `version` is the token's
      text, or the decimal digits where a number arrived. */
  datatype RawChange = RawChange(
    itemId: Option<ItemId>,
    seqNo: Option<int>,
    version: Option<Bytes>,
    envelope: Option<Blob>,
    deleted: Option<bool>)

  datatype RawChangeFeed = RawChangeFeed(changes: Option<seq<RawChange>>, nextSeq: Option<int>, hasMore: Option<bool>)

  datatype FeedChange = FeedChange(
    itemId: ItemId,
    seqNo: int,
    version: Option<Bytes>,
    envelope: Option<Bytes>,
    deleted: bool)

  datatype ChangeFeed = ChangeFeed(changes: seq<FeedChange>, nextSeq: int, hasMore: bool)

  // ----- fields ----------------------------------------------------------------------------------

  function CheckedSeq(offered: Option<int>): Result<int, WireError> {
    match offered
    case None => Err(Malformed)
    case Some(n) => if 0 <= n < MAX_SEQ then Ok(n) else Err(SeqOutOfRange(n))
  }

  predicate Usable(token: Bytes) {
    && token != [] && |token| <= MAX_VERSION_LEN
    && forall b | b in token :: 0x21 <= b <= 0x7e && b != QUOTE
  }

  function Unquoted(text: Bytes): Bytes {
    if |text| >= 2 && text[0] == QUOTE && text[|text| - 1] == QUOTE then text[1..|text| - 1] else text
  }

  function ParseVersion(text: Option<Bytes>): Result<Option<Bytes>, WireError> {
    match text
    case None => Ok(None)
    case Some(t) => if Usable(Unquoted(t)) then Ok(Some(Unquoted(t))) else Err(UnusableVersionToken)
  }

  function DecodeEnvelope(blob: Option<Blob>): Result<Option<Bytes>, WireError> {
    match blob
    case None => Ok(None)
    case Some(Blob(textLength, bytes)) =>
      if textLength / 4 * 3 > MAX_ENVELOPE_LEN then Err(EnvelopeTooLarge)
      else if bytes.None? then Err(Malformed)
      else if |bytes.value| > MAX_ENVELOPE_LEN then Err(EnvelopeTooLarge)
      else Ok(bytes)
  }

  /** One entry, after one numbered `previous`; the first check that fails is the one reported. */
  function DecodeChange(previous: Option<int>, raw: RawChange): Result<FeedChange, WireError> {
    match CheckedSeq(raw.seqNo)
    case Err(e) => Err(e)
    case Ok(n) =>
      if previous.Some? && n <= previous.value then Err(FeedOutOfOrder(n, previous.value))
      else
        match DecodeEnvelope(raw.envelope)
        case Err(e) => Err(e)
        case Ok(envelope) =>
          if raw.itemId.None? then Err(Malformed)
          else
            match ParseVersion(raw.version)
            case Err(e) => Err(e)
            case Ok(version) => Ok(FeedChange(raw.itemId.value, n, version, envelope, raw.deleted == Some(true)))
  }

  function DecodeChanges(previous: Option<int>, raws: seq<RawChange>): Result<seq<FeedChange>, WireError>
    decreases |raws|
  {
    if raws == [] then Ok([])
    else
      match DecodeChange(previous, raws[0])
      case Err(e) => Err(e)
      case Ok(change) =>
        Prepend([change], DecodeChanges(Some(change.seqNo), raws[1..]))
  }

  function Decode(raw: RawChangeFeed): Result<ChangeFeed, WireError> {
    var raws := if raw.changes.Some? then raw.changes.value else [];
    if |raws| > MAX_CHANGES_PER_PAGE then Err(ResponseTooLarge)
    else
      match DecodeChanges(None, raws)
      case Err(e) => Err(e)
      case Ok(changes) =>
        match CheckedSeq(raw.nextSeq)
        case Err(e) => Err(e)
        case Ok(next) =>
          if changes != [] && next < changes[|changes| - 1].seqNo
          then Err(FeedOutOfOrder(next, changes[|changes| - 1].seqNo))
          else Ok(ChangeFeed(changes, next, raw.hasMore == Some(true)))
  }

  // ----- the decoder -----------------------------------------------------------------------------

  /** Where the loop stands: `changes` came from the first `i` records, and the rest decides. */
  ghost predicate Decoding(raws: seq<RawChange>, i: nat, changes: seq<FeedChange>, previous: Option<int>) {
    && i <= |raws|
    && previous == (if changes == [] then None else Some(changes[|changes| - 1].seqNo))
    && DecodeChanges(None, raws) == Prepend(changes, DecodeChanges(previous, raws[i..]))
  }

  lemma DecodingStarts(raws: seq<RawChange>)
    ensures Decoding(raws, 0, [], None)
  {
    assert raws[0..] == raws;
    PrependNone(DecodeChanges(None, raws));
  }

  lemma DecodingAdvances(raws: seq<RawChange>, i: nat, changes: seq<FeedChange>, previous: Option<int>)
    requires Decoding(raws, i, changes, previous) && i < |raws|
    ensures var next := DecodeChange(previous, raws[i]);
            match next
            case Err(e) => DecodeChanges(None, raws) == Err(e)
            case Ok(change) => Decoding(raws, i + 1, changes + [change], Some(change.seqNo))
  {
    hide DecodeChange;
    assert raws[i..][1..] == raws[i + 1..];
    var next := DecodeChange(previous, raws[i]);
    if next.Ok? {
      PrependTwice(changes, [next.value], DecodeChanges(Some(next.value.seqNo), raws[i + 1..]));
    }
  }

  lemma DecodingEnds(raws: seq<RawChange>, changes: seq<FeedChange>, previous: Option<int>)
    requires Decoding(raws, |raws|, changes, previous)
    ensures DecodeChanges(None, raws) == Ok(changes)
    ensures previous == if changes == [] then None else Some(changes[|changes| - 1].seqNo)
  {
    assert changes + [] == changes;
  }

  method DecodeChangeFeed(raw: RawChangeFeed) returns (r: Result<ChangeFeed, WireError>)
    ensures r == Decode(raw)
  {
    hide DecodeChange, DecodeChanges, CheckedSeq, Decoding;
    var raws := if raw.changes.Some? then raw.changes.value else [];
    if |raws| > MAX_CHANGES_PER_PAGE {
      return Err(ResponseTooLarge);
    }
    var changes: seq<FeedChange> := [];
    var previous: Option<int> := None;
    var i := 0;
    DecodingStarts(raws);
    while i < |raws|
      invariant 0 <= i <= |raws|
      invariant Decoding(raws, i, changes, previous)
    {
      var change := DecodeChange(previous, raws[i]);
      DecodingAdvances(raws, i, changes, previous);
      if change.Err? {
        return Err(change.error);
      }
      changes := changes + [change.value];
      previous := Some(change.value.seqNo);
      i := i + 1;
    }
    DecodingEnds(raws, changes, previous);
    var next := CheckedSeq(raw.nextSeq);
    if next.Err? {
      return Err(next.error);
    }
    if previous.Some? && next.value < previous.value {
      return Err(FeedOutOfOrder(next.value, previous.value));
    }
    return Ok(ChangeFeed(changes, next.value, raw.hasMore == Some(true)));
  }

  // ----- which pages come out ----------------------------------------------------------------------

  predicate Ascending(changes: seq<FeedChange>) {
    forall i, j | 0 <= i < j < |changes| :: changes[i].seqNo < changes[j].seqNo
  }

  predicate Bounded(change: FeedChange) {
    && 0 <= change.seqNo < MAX_SEQ
    && (change.version.Some? ==> Usable(change.version.value))
    && (change.envelope.Some? ==> |change.envelope.value| <= MAX_ENVELOPE_LEN)
  }

  predicate WellFormed(feed: ChangeFeed) {
    && |feed.changes| <= MAX_CHANGES_PER_PAGE && Ascending(feed.changes)
    && (forall c | c in feed.changes :: Bounded(c) && c.seqNo <= feed.nextSeq)
    && 0 <= feed.nextSeq < MAX_SEQ
  }

  lemma {:induction false} DecodedChangesAscend(previous: Option<int>, raws: seq<RawChange>)
    requires DecodeChanges(previous, raws).Ok?
    ensures var changes := DecodeChanges(previous, raws).value;
            && |changes| == |raws| && Ascending(changes)
            && forall c | c in changes :: Bounded(c) && (previous.Some? ==> previous.value < c.seqNo)
    decreases |raws|
  {
    if raws != [] {
      DecodedChangesAscend(Some(DecodeChange(previous, raws[0]).value.seqNo), raws[1..]);
    }
  }

  /** Whatever a server sends, what gets through is bounded and strictly ascending. */
  lemma DecodedFeedIsWellFormed(raw: RawChangeFeed)
    requires Decode(raw).Ok?
    ensures WellFormed(Decode(raw).value)
  {
    DecodedChangesAscend(None, if raw.changes.Some? then raw.changes.value else []);
  }

  function EncodeChange(change: FeedChange): RawChange {
    RawChange(
      Some(change.itemId), Some(change.seqNo), change.version,
      if change.envelope.None? then None else Some(Blob((|change.envelope.value| + 2) / 3 * 4, change.envelope)),
      Some(change.deleted))
  }

  function EncodeChanges(changes: seq<FeedChange>): (raws: seq<RawChange>)
    ensures |raws| == |changes|
  {
    if changes == [] then [] else [EncodeChange(changes[0])] + EncodeChanges(changes[1..])
  }

  /** What an honest server sends for a page. */
  function Encode(feed: ChangeFeed): RawChangeFeed {
    RawChangeFeed(Some(EncodeChanges(feed.changes)), Some(feed.nextSeq), Some(feed.hasMore))
  }

  lemma EncodedChangeDecodes(previous: Option<int>, c: FeedChange)
    requires Bounded(c) && (previous.Some? ==> previous.value < c.seqNo)
    ensures DecodeChange(previous, EncodeChange(c)) == Ok(c)
  {
    if c.version.Some? { assert c.version.value[0] in c.version.value; }
  }

  lemma {:induction false} EncodedChangesDecode(previous: Option<int>, changes: seq<FeedChange>)
    requires Ascending(changes)
    requires forall c | c in changes :: Bounded(c) && (previous.Some? ==> previous.value < c.seqNo)
    ensures DecodeChanges(previous, EncodeChanges(changes)) == Ok(changes)
    decreases |changes|
  {
    hide DecodeChange, EncodeChange, Bounded;
    if changes != [] {
      var c := changes[0];
      EncodedChangeDecodes(previous, c);
      EncodedChangesDecode(Some(c.seqNo), changes[1..]);
      assert EncodeChanges(changes)[1..] == EncodeChanges(changes[1..]);
      assert changes == [c] + changes[1..];
    }
  }

  /** Every well-formed page survives the trip, so the checks refuse no honest page. */
  lemma FeedRoundTrip(feed: ChangeFeed)
    requires WellFormed(feed)
    ensures Decode(Encode(feed)) == Ok(feed)
  {
    EncodedChangesDecode(None, feed.changes);
  }

  // ----- exactly which pages are taken, and what they say ---------------------------------------------

  /** Visible characters other than the quote, 128 of them at most. */
  ghost predicate IsToken(token: Bytes) {
    1 <= |token| <= 128 && forall i | 0 <= i < |token| :: '!' as int <= token[i] <= '~' as int && token[i] != '"' as int
  }

  /** A token stands for itself, alone or in one pair of quotes. */
  ghost predicate VersionIs(text: Option<Bytes>, version: Option<Bytes>) {
    match text
    case None => version.None?
    case Some(t) => version.Some? && IsToken(version.value) && (t == version.value || t == [QUOTE] + version.value + [QUOTE])
  }

  ghost predicate EnvelopeIs(blob: Option<Blob>, envelope: Option<Bytes>) {
    match blob
    case None => envelope.None?
    case Some(Blob(textLength, bytes)) =>
      envelope.Some? && bytes == envelope && textLength / 4 * 3 <= MAX_ENVELOPE_LEN && |envelope.value| <= MAX_ENVELOPE_LEN
  }

  /** The record says exactly this change; a missing deletion flag is none. */
  ghost predicate StandsFor(raw: RawChange, c: FeedChange) {
    && raw.itemId == Some(c.itemId) && raw.seqNo == Some(c.seqNo) && 0 <= c.seqNo < MAX_SEQ
    && VersionIs(raw.version, c.version) && EnvelopeIs(raw.envelope, c.envelope) && (c.deleted <==> raw.deleted == Some(true))
  }

  ghost predicate StandFor(raws: seq<RawChange>, changes: seq<FeedChange>) {
    && |raws| == |changes| && (forall i | 0 <= i < |raws| :: StandsFor(raws[i], changes[i]))
    && forall i | 0 < i < |changes| :: changes[i - 1].seqNo < changes[i].seqNo
  }

  function LastNumber(changes: seq<FeedChange>): Option<int> { if changes == [] then None else Some(changes[|changes| - 1].seqNo) }

  /** Something wrong with a record that comes after one numbered `previous`. */
  ghost predicate RecordFault(previous: Option<int>, raw: RawChange, e: WireError) {
    match e
    case Malformed => raw.seqNo.None? || raw.itemId.None? || (raw.envelope.Some? && raw.envelope.value.bytes.None?)
    case SeqOutOfRange(n) => raw.seqNo == Some(n) && !(0 <= n < MAX_SEQ)
    case FeedOutOfOrder(n, p) => raw.seqNo == Some(n) && previous == Some(p) && n <= p
    case EnvelopeTooLarge =>
      raw.envelope.Some? && var blob := raw.envelope.value;
                            blob.textLength / 4 * 3 > MAX_ENVELOPE_LEN || (blob.bytes.Some? && |blob.bytes.value| > MAX_ENVELOPE_LEN)
    case UnusableVersionToken => raw.version.Some? && forall v :: !VersionIs(raw.version, v)
    case ResponseTooLarge => false
  }

  lemma TokensAreUsable(token: Bytes)
    ensures IsToken(token) <==> Usable(token)
  {
    if Usable(token) {
      forall i | 0 <= i < |token| ensures '!' as int <= token[i] <= '~' as int && token[i] != '"' as int { assert token[i] in token; }
    }
  }

  lemma VersionIsRead(text: Option<Bytes>, version: Option<Bytes>)
    ensures ParseVersion(text) == Ok(version) <==> VersionIs(text, version)
    ensures ParseVersion(text).Err? ==> ParseVersion(text) == Err(UnusableVersionToken) && text.Some?
  {
    if text.Some? {
      var t := text.value;
      TokensAreUsable(Unquoted(t));
      if version.Some? { TokensAreUsable(version.value); }
      if ParseVersion(text) == Ok(version) && t != version.value {
        assert t == [QUOTE] + t[1..|t| - 1] + [QUOTE];
      }
      if VersionIs(text, version) {
        var v := version.value;
        if t == v {
          assert t[0] in t;
        } else {
          assert t[1..|t| - 1] == v;
        }
      }
    }
  }

  lemma ChangeIsRead(previous: Option<int>, raw: RawChange, c: FeedChange)
    ensures DecodeChange(previous, raw) == Ok(c) <==> StandsFor(raw, c) && (previous.Some? ==> previous.value < c.seqNo)
  {
    hide Usable, Unquoted, ParseVersion, VersionIs;
    VersionIsRead(raw.version, c.version);
    if raw.envelope.Some? { assert raw.envelope.value == Blob(raw.envelope.value.textLength, raw.envelope.value.bytes); }
  }

  lemma ChangeFailsTruly(previous: Option<int>, raw: RawChange)
    requires DecodeChange(previous, raw).Err?
    ensures RecordFault(previous, raw, DecodeChange(previous, raw).error)
  {
    hide Usable, Unquoted, ParseVersion, VersionIs;
    forall v ensures ParseVersion(raw.version) == Ok(v) <==> VersionIs(raw.version, v) { VersionIsRead(raw.version, v); }
    VersionIsRead(raw.version, None);
  }

  /** Reading on from the records that stand for `done`. */
  lemma {:induction false} ChangesAreRead(raws: seq<RawChange>, i: nat, done: seq<FeedChange>)
    requires i <= |raws| && StandFor(raws[..i], done)
    ensures match DecodeChanges(LastNumber(done), raws[i..])
            case Ok(more) => StandFor(raws, done + more)
            case Err(e) => Broken(raws, e)
    decreases |raws| - i
  {
    hide DecodeChange, StandsFor, RecordFault;
    if i == |raws| {
      assert raws[..i] == raws && done + [] == done;
    } else {
      assert raws[i..][0] == raws[i] && raws[i..][1..] == raws[i + 1..];
      var next := DecodeChange(LastNumber(done), raws[i]);
      if next.Err? {
        ChangeFailsTruly(LastNumber(done), raws[i]);
        assert BrokenAt(raws, i, done, next.error);
      } else {
        ChangeIsRead(LastNumber(done), raws[i], next.value);
        assert raws[..i + 1] == raws[..i] + [raws[i]];
        StandsOn(raws[..i], done, raws[i], next.value);
        ChangesAreRead(raws, i + 1, done + [next.value]);
        var rest := DecodeChanges(Some(next.value.seqNo), raws[i + 1..]);
        if rest.Ok? { assert done + [next.value] + rest.value == done + ([next.value] + rest.value); }
      }
    }
  }

  lemma StandsOn(raws: seq<RawChange>, changes: seq<FeedChange>, raw: RawChange, c: FeedChange)
    requires StandFor(raws, changes) && StandsFor(raw, c) && (changes != [] ==> changes[|changes| - 1].seqNo < c.seqNo)
    ensures StandFor(raws + [raw], changes + [c])
  {
    hide StandsFor;
  }

  /** The first record with a fault, and the fault. */
  ghost predicate BrokenAt(raws: seq<RawChange>, i: nat, done: seq<FeedChange>, e: WireError) {
    i < |raws| && StandFor(raws[..i], done) && RecordFault(LastNumber(done), raws[i], e)
  }

  ghost predicate Broken(raws: seq<RawChange>, e: WireError) { exists i, done :: BrokenAt(raws, i, done, e) }

  /** Exactly the pages that are taken: at most 512 records, each standing for its change, in ascending
      order, and a resume point no lower than the last; missing records are none and a missing flag is no. */
  ghost predicate Says(raw: RawChangeFeed, feed: ChangeFeed) {
    && |feed.changes| <= 512 && StandFor(if raw.changes.Some? then raw.changes.value else [], feed.changes)
    && raw.nextSeq == Some(feed.nextSeq) && 0 <= feed.nextSeq < MAX_SEQ
    && (feed.changes != [] ==> feed.changes[|feed.changes| - 1].seqNo <= feed.nextSeq)
    && (feed.hasMore <==> raw.hasMore == Some(true))
  }

  lemma {:induction false} StandingDecodes(raws: seq<RawChange>, changes: seq<FeedChange>, i: nat)
    requires StandFor(raws, changes) && i <= |raws|
    ensures DecodeChanges(LastNumber(changes[..i]), raws[i..]) == Ok(changes[i..])
    decreases |raws| - i
  {
    hide DecodeChange, StandsFor;
    if i < |raws| {
      assert i > 0 ==> changes[i - 1].seqNo < changes[i].seqNo && changes[..i][i - 1] == changes[i - 1];
      ChangeIsRead(LastNumber(changes[..i]), raws[i], changes[i]);
      StandingDecodes(raws, changes, i + 1);
      assert raws[i..][1..] == raws[i + 1..] && raws[i..][0] == raws[i];
      assert changes[i..] == [changes[i]] + changes[i + 1..];
      assert changes[..i + 1][i] == changes[i];
      assert LastNumber(changes[..i + 1]) == Some(changes[i].seqNo);
      assert DecodeChange(LastNumber(changes[..i]), raws[i]) == Ok(changes[i]);
    } else {
      assert raws[i..] == [] && changes[i..] == [];
    }
  }

  lemma DecodesExactlyWhen(raw: RawChangeFeed, feed: ChangeFeed)
    ensures Decode(raw) == Ok(feed) <==> Says(raw, feed)
  {
    hide Decode, Says;
    if Decode(raw) == Ok(feed) { DecodedIsSaid(raw, feed); }
    if Says(raw, feed) { SaidDecodes(raw, feed); }
  }

  lemma DecodedIsSaid(raw: RawChangeFeed, feed: ChangeFeed)
    requires Decode(raw) == Ok(feed)
    ensures Says(raw, feed)
  {
    hide DecodeChanges, StandFor;
    var raws := if raw.changes.Some? then raw.changes.value else [];
    assert raws[0..] == raws && raws[..0] == [];
    NothingStands();
    ChangesAreRead(raws, 0, []);
    assert [] + feed.changes == feed.changes;
    SameLength(raws, feed.changes);
  }

  lemma SaidDecodes(raw: RawChangeFeed, feed: ChangeFeed)
    requires Says(raw, feed)
    ensures Decode(raw) == Ok(feed)
  {
    hide DecodeChanges, StandFor;
    var raws := if raw.changes.Some? then raw.changes.value else [];
    SameLength(raws, feed.changes);
    StandingDecodes(raws, feed.changes, 0);
    assert raws[0..] == raws && feed.changes[0..] == feed.changes && feed.changes[..0] == [];
  }

  lemma NothingStands()
    ensures StandFor([], [])
  {
  }

  lemma SameLength(raws: seq<RawChange>, changes: seq<FeedChange>)
    requires StandFor(raws, changes)
    ensures |raws| == |changes|
  {
  }

  ghost predicate ResumeFault(last: Option<int>, nextSeq: Option<int>, e: WireError) {
    match e
    case Malformed => nextSeq.None?
    case SeqOutOfRange(n) => nextSeq == Some(n) && !(0 <= n < MAX_SEQ)
    case FeedOutOfOrder(n, p) => nextSeq == Some(n) && last == Some(p) && n < p
    case _ => false
  }

  /** And every refusal names something wrong with the page: its size, its first faulty record after good
      ones, or its resume point. */
  lemma FailsTruly(raw: RawChangeFeed)
    requires Decode(raw).Err?
    ensures var raws := if raw.changes.Some? then raw.changes.value else [];
            var e := Decode(raw).error;
            if |raws| > 512 then e == ResponseTooLarge
            else Broken(raws, e) || exists changes :: StandFor(raws, changes) && ResumeFault(LastNumber(changes), raw.nextSeq, e)
  {
    hide DecodeChanges, StandFor, Broken;
    var raws := if raw.changes.Some? then raw.changes.value else [];
    assert raws[0..] == raws && raws[..0] == [];
    assert StandFor(raws[..0], []) by { NothingStands(); }
    ChangesAreRead(raws, 0, []);
    var changes := DecodeChanges(None, raws);
    if |raws| <= 512 && changes.Ok? {
      assert [] + changes.value == changes.value;
      assert StandFor(raws, changes.value) && ResumeFault(LastNumber(changes.value), raw.nextSeq, Decode(raw).error);
    }
  }
}
