/** What an `otpauth://` URI says: every part of the model a text parses to, told from the text. */
module OtpReadings {
  import opened Foundations
  import opened Decimals
  import opened Texts
  import opened OtpConfigs
  import opened OtpUris
  import opened OtpRoundTrips
  import Base32
  import Percent

  // ----- the parts of the text -----------------------------------------------------------------------

  predicate StartsWith(input: Bytes, prefix: Bytes) { |prefix| <= |input| && Lower(input[..|prefix|]) == prefix }

  function Mark(): Bytes { [COLON, SLASH, SLASH] }

  lemma MarkIsWritten()
    ensures Ascii("://") == Mark()
  {
  }

  /** Folding a text that starts with a name and the mark. */
  lemma FoldedStart(input: Bytes, name: Bytes)
    requires StartsWith(input, name + Mark())
    ensures |name| + 3 <= |input| && Lower(input[..|name|]) == name && input == input[..|name|] + Mark() + input[|name| + 3..]
  {
    var n := |name|;
    var start := input[..n + 3];
    assert Lower(start) == name + Mark();
    assert forall i | 0 <= i < n :: LowerByte(input[i]) == Lower(start)[i] == name[i];
    assert Lower(start)[n] == COLON && Lower(start)[n + 1] == SLASH && Lower(start)[n + 2] == SLASH;
    assert input[n] == COLON && input[n + 1] == SLASH && input[n + 2] == SLASH;
    assert input[n..n + 3] == Mark();
  }

  lemma SchemeFound(input: Bytes, name: Bytes)
    requires StartsWith(input, name + Mark()) && Lacks(name, COLON)
    ensures var n := |name|;
            n + 3 <= |input| && SplitOnce(input, Mark()) == Some((input[..n], input[n + 3..])) && Lower(input[..n]) == name
  {
    hide StartsWith;
    FoldedStart(input, name);
    var head := input[..|name|];
    forall i | 0 <= i < |head| ensures head[i] != COLON { assert Lower(head)[i] == name[i]; }
    SplitsAtFirst(head, Mark(), input[|name| + 3..]);
  }

  lemma SchemeMissing(input: Bytes, scheme: Bytes, rest: Bytes)
    requires SplitOnce(input, Mark()) == Some((scheme, rest))
    ensures StartsWith(input, Lower(scheme) + Mark()) && rest == input[|scheme| + 3..]
  {
    SplitsExactlyWhen(input, Mark());
    var n := |scheme|;
    assert input[..n + 3] == scheme + Mark();
    assert Lower(input[..n + 3]) == Lower(scheme) + Mark();
  }

  lemma NamesFold()
    ensures Lower(Ascii("otpauth")) == Ascii("otpauth") && Lower(Ascii("otpauth-migration")) == Ascii("otpauth-migration")
    ensures Lacks(Ascii("otpauth"), COLON) && Lacks(Ascii("otpauth-migration"), COLON)
  {
  }

  /** The scheme is `otpauth`, in any case; the migration format is told apart, and nothing else passes. */
  lemma SchemeIsStripped(input: Bytes)
    ensures StripScheme(input)
            == if StartsWith(input, Ascii("otpauth") + Mark()) then Ok(input[10..])
               else if StartsWith(input, Ascii("otpauth-migration") + Mark()) then Err(MigrationUri)
               else Err(NotOtpauth)
  {
    hide StartsWith, SplitOnce, Lower, Mark;
    MarkIsWritten();
    NamesFold();
    if StartsWith(input, Ascii("otpauth") + Mark()) {
      SchemeFound(input, Ascii("otpauth"));
    } else if StartsWith(input, Ascii("otpauth-migration") + Mark()) {
      SchemeFound(input, Ascii("otpauth-migration"));
    } else if SplitOnce(input, Mark()).Some? {
      var (scheme, rest) := SplitOnce(input, Mark()).value;
      SchemeMissing(input, scheme, rest);
    }
  }

  function Part(mark: byte, text: Option<Bytes>): Bytes { if text.Some? then [mark] + text.value else [] }

  /** `authority[/name][?query][#fragment]`, each mark at its first chance. */
  predicate Parts(rest: Bytes, authority: Bytes, name: Option<Bytes>, query: Option<Bytes>, fragment: Option<Bytes>) {
    && rest == authority + Part(SLASH, name) + Part(QUESTION, query) + Part(HASH, fragment)
    && Lacks(authority, SLASH) && Lacks(authority, QUESTION) && Lacks(authority, HASH)
    && (name.Some? ==> Lacks(name.value, QUESTION) && Lacks(name.value, HASH))
    && (query.Some? ==> Lacks(query.value, HASH))
  }

  /** Cutting at a mark leaves the part before it and, if the mark is there, what follows. */
  lemma Cut(head: Bytes, mark: byte, tail: Option<Bytes>)
    requires Lacks(head, mark)
    ensures SplitOnce(head + Part(mark, tail), [mark]) == if tail.Some? then Some((head, tail.value)) else None
  {
    if tail.Some? {
      assert head + Part(mark, tail) == head + [mark] + tail.value;
      SplitsAtFirst(head, [mark], tail.value);
    } else {
      assert head + [] == head;
      NothingToSplit(head, [mark]);
    }
  }

  lemma LocatesTheParts(input: Bytes, rest: Bytes, authority: Bytes, name: Option<Bytes>, query: Option<Bytes>, fragment: Option<Bytes>)
    requires StripScheme(input) == Ok(rest) && Parts(rest, authority, name, query, fragment)
    ensures Locate(input)
            == match FromUriType(authority)
               case None => Err(UnknownKind)
               case Some(kind) => Ok(Located(kind, Or(name, []), Or(query, []), fragment.Some?))
  {
    hide SplitOnce, StripScheme, FromUriType;
    var path := authority + Part(SLASH, name);
    var before := path + Part(QUESTION, query);
    assert Lacks(path, QUESTION) && Lacks(before, HASH);
    Cut(before, HASH, fragment);
    if fragment.None? { assert before + [] == rest; }
    Cut(path, QUESTION, query);
    if query.None? { assert path + [] == before; }
    Cut(authority, SLASH, name);
    if name.None? { assert authority + [] == path; }
    var f := SplitOnce(rest, [HASH]);
    assert (if f.Some? then f.value.0 else rest) == before && f.Some? == fragment.Some?;
    var (p, q) := Or(SplitOnce(before, [QUESTION]), (before, []));
    assert p == path;
    assert q == Or(query, []);
    var (a, n) := Or(SplitOnce(path, [SLASH]), (path, []));
    assert a == authority;
    assert n == Or(name, []);
  }

  /** The text up to a mark and, if the mark is there, what follows it. */
  lemma Sides(text: Bytes, mark: byte) returns (head: Bytes, tail: Option<Bytes>)
    ensures text == head + Part(mark, tail) && Lacks(head, mark)
  {
    SplitsExactlyWhen(text, [mark]);
    if SplitOnce(text, [mark]).None? {
      head, tail := text, None;
      forall i | 0 <= i < |text| ensures text[i] != mark { assert !OccursAt(text, [mark], i); }
    } else {
      var (h, t) := SplitOnce(text, [mark]).value;
      head, tail := h, Some(t);
      forall i | 0 <= i < |h| ensures h[i] != mark { assert !OccursAt(text, [mark], i) && text[i] == h[i]; }
    }
  }

  /** Every text is made of such parts. */
  lemma EveryTextHasParts(rest: Bytes) returns (authority: Bytes, name: Option<Bytes>, query: Option<Bytes>, fragment: Option<Bytes>)
    ensures Parts(rest, authority, name, query, fragment)
  {
    var before, path;
    before, fragment := Sides(rest, HASH);
    path, query := Sides(before, QUESTION);
    authority, name := Sides(path, SLASH);
    assert forall i | 0 <= i < |path| :: before[i] == path[i];
    assert forall i | 0 <= i < |authority| :: path[i] == authority[i];
    if query.Some? { assert forall i | 0 <= i < |query.value| :: before[|path| + 1 + i] == query.value[i]; }
    if name.Some? { assert forall i | 0 <= i < |name.value| :: path[|authority| + 1 + i] == name.value[i]; }
  }

  // ----- names on the wire -----------------------------------------------------------------------------

  ghost predicate NamesKind(text: Bytes, kind: OtpKind) {
    match kind
    case Totp => text == Ascii("totp")
    case Hotp => text == Ascii("hotp")
    case Steam => text == Ascii("steam")
    case Motp => text == Ascii("motp")
    case Blizzard => text == Ascii("blizzard")
    case Yandex => text == Ascii("yaotp") || text == Ascii("yandex")
  }

  predicate Folded(text: Bytes) { Lower(text) == text }

  lemma SameAs(text: Bytes, name: Bytes)
    requires Folded(name)
    ensures SameIgnoringCase(text, name) <==> Lower(text) == name
  {
  }

  lemma KindNamesFold()
    ensures Folded(Ascii("totp")) && Folded(Ascii("hotp")) && Folded(Ascii("motp")) && Folded(Ascii("steam"))
    ensures Folded(Ascii("blizzard")) && Folded(Ascii("yaotp")) && Folded(Ascii("yandex"))
  {
  }

  lemma KindNamesDiffer()
    ensures Ascii("totp") != Ascii("hotp") && Ascii("totp") != Ascii("motp") && Ascii("hotp") != Ascii("motp") && Ascii("steam") != Ascii("yaotp")
  {
    assert Ascii("totp")[0] != Ascii("hotp")[0] && Ascii("totp")[0] != Ascii("motp")[0] && Ascii("hotp")[0] != Ascii("motp")[0];
    assert Ascii("steam")[0] != Ascii("yaotp")[0];
  }

  /** The authority is the kind's name in any case, or the alias; and what is written is the kind's name. */
  lemma KindIsNamed(authority: Bytes, kind: OtpKind)
    ensures FromUriType(authority) == Some(kind) <==> NamesKind(Lower(authority), kind)
    ensures kind.UriType() != Ascii("yandex") && NamesKind(kind.UriType(), kind)
  {
    hide SameIgnoringCase, Folded, Lower, Ascii;
    KindNamesDiffer();
    KindNamesFold();
    SameAs(authority, Ascii("totp"));
    SameAs(authority, Ascii("hotp"));
    SameAs(authority, Ascii("steam"));
    SameAs(authority, Ascii("motp"));
    SameAs(authority, Ascii("blizzard"));
    SameAs(authority, Ascii("yaotp"));
    SameAs(authority, Ascii("yandex"));
  }

  ghost predicate NamesHash(text: Bytes, alg: HashAlg) {
    match alg
    case Sha1 => text == Ascii("sha1") || text == Ascii("sha-1")
    case Sha256 => text == Ascii("sha256") || text == Ascii("sha-256")
    case Sha512 => text == Ascii("sha512") || text == Ascii("sha-512")
  }

  lemma HashNamesFold()
    ensures Lower(Ascii("SHA1")) == Ascii("sha1") && Lower(Ascii("SHA-1")) == Ascii("sha-1")
    ensures Lower(Ascii("SHA256")) == Ascii("sha256") && Lower(Ascii("SHA-256")) == Ascii("sha-256")
    ensures Lower(Ascii("SHA512")) == Ascii("sha512") && Lower(Ascii("SHA-512")) == Ascii("sha-512")
    ensures Ascii("sha256") != Ascii("sha512") && Ascii("sha-256") != Ascii("sha-512")
  {
    assert Ascii("sha256")[3] != Ascii("sha512")[3] && Ascii("sha-256")[4] != Ascii("sha-512")[4];
  }

  /** A hash is named with or without the hyphen, in any case, and written without it. */
  lemma HashIsNamed(text: Bytes, alg: HashAlg)
    ensures ParseHashAlg(text) == Some(alg) <==> NamesHash(Lower(text), alg)
    ensures |alg.Name()| == (if alg.Sha1? then 4 else 6) && NamesHash(Lower(alg.Name()), alg)
  {
    hide Lower, Ascii;
    HashNamesFold();
  }

  ghost predicate NamesParam(text: Bytes, param: Param) {
    match param
    case Secret => text == Ascii("secret")
    case Issuer => text == Ascii("issuer")
    case Algorithm => text == Ascii("algorithm")
    case DigitCount => text == Ascii("digits")
    case Period => text == Ascii("period")
    case Counter => text == Ascii("counter")
    case Pin => text == Ascii("pin")
  }

  lemma ParamNamesDiffer()
    ensures Ascii("secret") != Ascii("issuer") && Ascii("secret") != Ascii("digits") && Ascii("secret") != Ascii("period")
    ensures Ascii("issuer") != Ascii("digits") && Ascii("issuer") != Ascii("period") && Ascii("digits") != Ascii("period")
  {
    assert Ascii("secret")[0] != Ascii("issuer")[0] && Ascii("secret")[0] != Ascii("digits")[0] && Ascii("secret")[0] != Ascii("period")[0];
    assert Ascii("issuer")[0] != Ascii("digits")[0] && Ascii("issuer")[0] != Ascii("period")[0] && Ascii("digits")[0] != Ascii("period")[0];
  }

  /** A known name is one of seven, in any case, and is written in small letters. */
  lemma ParamIsNamed(name: Bytes, param: Param)
    ensures KnownParam(name) == Some(param) <==> NamesParam(Lower(name), param)
    ensures NamesParam(param.Name(), param)
  {
    hide Lower, Ascii;
    ParamNamesDiffer();
  }

  // ----- the label -------------------------------------------------------------------------------------

  /** `[issuer:]account`, cut at the first colon and only then decoded; an empty issuer is none. */
  lemma LabelIsRead(check: Percent.TextCheck, issuer: Option<Bytes>, account: Bytes)
    requires if issuer.Some? then Lacks(issuer.value, COLON) else Lacks(account, COLON)
    ensures var i := if issuer.Some? then Percent.Decode(check, issuer.value) else Ok([]);
            var a := Percent.Decode(check, account);
            DecodeLabel(check, (if issuer.Some? then issuer.value + [COLON] else []) + account)
            == if i.Err? then Err(BadText(i.error)) else if a.Err? then Err(BadText(a.error))
               else Ok((if i.value == [] then None else Some(i.value), a.value))
  {
    hide Percent.Decode, SplitOnce;
    if issuer.Some? {
      SplitsAtFirst(issuer.value, [COLON], account);
    } else {
      assert [] + account == account;
      NothingToSplit(account, [COLON]);
    }
  }

  // ----- the query -------------------------------------------------------------------------------------

  function UpTo(text: Bytes, mark: byte): (head: Bytes)
    ensures |head| <= |text| && head == text[..|head|] && Lacks(head, mark)
    ensures |head| < |text| ==> text[|head|] == mark
  {
    if text == [] || text[0] == mark then [] else [text[0]] + UpTo(text[1..], mark)
  }

  function After(text: Bytes, mark: byte): Bytes {
    var n := |UpTo(text, mark)|;
    if n < |text| then text[n + 1..] else []
  }

  lemma PairIsCut(pair: Bytes)
    ensures Or(SplitOnce(pair, [EQUALS]), (pair, [])) == (UpTo(pair, EQUALS), After(pair, EQUALS))
  {
    hide SplitOnce;
    var (head, tail) := (UpTo(pair, EQUALS), After(pair, EQUALS));
    if |head| < |pair| {
      assert pair == head + [EQUALS] + tail;
      SplitsAtFirst(head, [EQUALS], tail);
    } else {
      assert head == pair;
      NothingToSplit(pair, [EQUALS]);
    }
  }

  /** The pair reads as this name and value. */
  ghost predicate Says(check: Percent.TextCheck, pair: Bytes, name: Bytes, value: Bytes) {
    && UpTo(pair, EQUALS) != []
    && Percent.Decode(check, UpTo(pair, EQUALS)) == Ok(name) && Percent.Decode(check, After(pair, EQUALS)) == Ok(value)
  }

  ghost predicate Gives(check: Percent.TextCheck, pair: Bytes, param: Param, value: Bytes) {
    exists name :: Says(check, pair, name, value) && NamesParam(Lower(name), param)
  }

  ghost predicate IsKnown(name: Bytes) { exists param :: NamesParam(Lower(name), param) }

  ghost predicate GivesExtra(check: Percent.TextCheck, pair: Bytes, extra: (Bytes, Bytes)) {
    Says(check, pair, extra.0, extra.1) && !IsKnown(extra.0)
  }

  ghost predicate HasExtra(check: Percent.TextCheck, pair: Bytes) { exists extra :: GivesExtra(check, pair, extra) }

  /** One of the first `n` pairs gives the parameter this value. */
  ghost predicate Given(check: Percent.TextCheck, pairs: seq<Bytes>, n: nat, param: Param, value: Bytes)
    requires n <= |pairs|
  {
    exists i :: 0 <= i < n && Gives(check, pairs[i], param, value)
  }

  /** Pair `i` gives a parameter one of the pairs before it gives. */
  ghost predicate GivesAgain(check: Percent.TextCheck, pairs: seq<Bytes>, i: nat, param: Param)
    requires i < |pairs|
  {
    (exists v :: Given(check, pairs, i, param, v)) && exists v :: Gives(check, pairs[i], param, v)
  }

  /** What is wrong with pair `i` after the ones before it. */
  ghost predicate HasFault(check: Percent.TextCheck, pairs: seq<Bytes>, i: nat, e: UriError)
    requires i < |pairs|
  {
    var (name, value) := (Percent.Decode(check, UpTo(pairs[i], EQUALS)), Percent.Decode(check, After(pairs[i], EQUALS)));
    && pairs[i] != []
    && if UpTo(pairs[i], EQUALS) == [] then e == MalformedQuery
       else if name.Err? then e == UriError.BadText(name.error)
       else if value.Err? then e == UriError.BadText(value.error)
       else e.DuplicateParam? && GivesAgain(check, pairs, i, e.param)
  }

  /** The pairs with names of their own among the first `n`, in order. */
  ghost predicate AreExtras(check: Percent.TextCheck, pairs: seq<Bytes>, n: nat, extra: seq<(Bytes, Bytes)>)
    requires n <= |pairs|
    decreases n
  {
    if n == 0 then extra == []
    else if HasExtra(check, pairs[n - 1]) then
      extra != [] && GivesExtra(check, pairs[n - 1], extra[|extra| - 1]) && AreExtras(check, pairs, n - 1, extra[..|extra| - 1])
    else AreExtras(check, pairs, n - 1, extra)
  }

  ghost predicate AreSlots(check: Percent.TextCheck, pairs: seq<Bytes>, n: nat, slots: map<Param, Bytes>)
    requires n <= |pairs|
  {
    forall p, v :: Given(check, pairs, n, p, v) <==> p in slots && slots[p] == v
  }

  ghost predicate Faultless(check: Percent.TextCheck, pairs: seq<Bytes>, n: nat)
    requires n <= |pairs|
  {
    forall i, e | 0 <= i < n :: !HasFault(check, pairs, i, e)
  }

  ghost predicate Read(check: Percent.TextCheck, pairs: seq<Bytes>, n: nat, q: Query)
    requires n <= |pairs|
  {
    Faultless(check, pairs, n) && AreSlots(check, pairs, n, q.slots) && AreExtras(check, pairs, n, q.extra)
  }

  lemma SaysOnce(check: Percent.TextCheck, pair: Bytes, name: Bytes, value: Bytes)
    requires Says(check, pair, name, value)
    ensures forall p, v :: Gives(check, pair, p, v) <==> KnownParam(name) == Some(p) && v == value
    ensures forall e :: GivesExtra(check, pair, e) <==> KnownParam(name).None? && e == (name, value)
  {
    hide KnownParam, NamesParam, Percent.Decode, Lower, UpTo, After;
    forall p ensures KnownParam(name) == Some(p) <==> NamesParam(Lower(name), p) { ParamIsNamed(name, p); }
    assert KnownParam(name).None? <==> !IsKnown(name) by {
      if KnownParam(name).Some? { assert NamesParam(Lower(name), KnownParam(name).value); }
    }
  }

  lemma SilentPair(check: Percent.TextCheck, pair: Bytes)
    requires pair == [] || UpTo(pair, EQUALS) == []
    ensures forall p, v :: !Gives(check, pair, p, v)
    ensures forall e :: !GivesExtra(check, pair, e)
  {
    hide NamesParam;
  }

  /** A pair that gives no parameter fills no slot. */
  lemma SlotsStay(check: Percent.TextCheck, pairs: seq<Bytes>, i: nat, slots: map<Param, Bytes>)
    requires i < |pairs| && AreSlots(check, pairs, i, slots) && forall p, v :: !Gives(check, pairs[i], p, v)
    ensures AreSlots(check, pairs, i + 1, slots)
  {
    hide Gives;
    var next := i + 1;
    forall p, v ensures Given(check, pairs, next, p, v) <==> Given(check, pairs, i, p, v) {
      if Given(check, pairs, next, p, v) {
        var k :| 0 <= k < next && Gives(check, pairs[k], p, v);
        assert k < i;
      }
    }
  }

  lemma SlotFills(check: Percent.TextCheck, pairs: seq<Bytes>, i: nat, slots: map<Param, Bytes>, param: Param, value: Bytes)
    requires i < |pairs| && AreSlots(check, pairs, i, slots) && param !in slots
    requires forall p, v :: Gives(check, pairs[i], p, v) <==> p == param && v == value
    ensures AreSlots(check, pairs, i + 1, slots[param := value])
  {
    hide Gives;
    var next := i + 1;
    var filled := slots[param := value];
    forall p, v ensures Given(check, pairs, next, p, v) <==> Given(check, pairs, i, p, v) || (p == param && v == value) {
      if Given(check, pairs, next, p, v) {
        var k :| 0 <= k < next && Gives(check, pairs[k], p, v);
      }
      if p == param && v == value { assert Gives(check, pairs[i], p, v); }
    }
    forall p, v ensures Given(check, pairs, next, p, v) <==> p in filled && filled[p] == v {
      assert Given(check, pairs, i, p, v) <==> p in slots && slots[p] == v;
    }
  }

  lemma NoFault(check: Percent.TextCheck, pairs: seq<Bytes>, i: nat)
    requires i < |pairs| && Faultless(check, pairs, i) && forall e :: !HasFault(check, pairs, i, e)
    ensures Faultless(check, pairs, i + 1)
  {
    hide HasFault;
  }

  lemma PairIsRead(check: Percent.TextCheck, pairs: seq<Bytes>, i: nat, q: Query)
    requires i < |pairs| && Read(check, pairs, i, q)
    ensures match AddPair(check, q, pairs[i])
            case Err(e) => HasFault(check, pairs, i, e)
            case Ok(next) => Read(check, pairs, i + 1, next)
  {
    hide KnownParam, Gives, GivesExtra, Percent.Decode, UpTo, After, SplitOnce, AreSlots, Given, Faultless;
    var pair := pairs[i];
    PairIsCut(pair);
    var (name, value) := (Percent.Decode(check, UpTo(pair, EQUALS)), Percent.Decode(check, After(pair, EQUALS)));
    if pair == [] {
      SilentPair(check, pair);
      SlotsStay(check, pairs, i, q.slots);
      NoFault(check, pairs, i);
    } else if UpTo(pair, EQUALS) != [] && name.Ok? && value.Ok? {
      SaysOnce(check, pair, name.value, value.value);
      NamedPairIsRead(check, pairs, i, q, name.value, value.value);
    }
  }

  lemma NamedPairIsRead(check: Percent.TextCheck, pairs: seq<Bytes>, i: nat, q: Query, name: Bytes, value: Bytes)
    requires i < |pairs| && Read(check, pairs, i, q) && Says(check, pairs[i], name, value)
    requires forall p, v :: Gives(check, pairs[i], p, v) <==> KnownParam(name) == Some(p) && v == value
    requires forall e :: GivesExtra(check, pairs[i], e) <==> KnownParam(name).None? && e == (name, value)
    ensures match Add(q, name, value)
            case Err(e) => HasFault(check, pairs, i, e)
            case Ok(next) => Read(check, pairs, i + 1, next)
  {
    hide KnownParam, Gives, GivesExtra, Percent.Decode, UpTo, After, Given, Faultless, AreSlots;
    assert pairs[i] != [] by { EmptyPairSays(check); }
    if KnownParam(name).None? {
      SlotsStay(check, pairs, i, q.slots);
      NoFault(check, pairs, i);
      assert GivesExtra(check, pairs[i], (name, value));
      assert (q.extra + [(name, value)])[..|q.extra|] == q.extra;
    } else {
      var param := KnownParam(name).value;
      assert Gives(check, pairs[i], param, value);
      SlotIsGiven(check, pairs, i, q.slots, param);
      if param !in q.slots {
        SlotFills(check, pairs, i, q.slots, param, value);
        NoFault(check, pairs, i);
      }
    }
  }

  lemma SlotIsGiven(check: Percent.TextCheck, pairs: seq<Bytes>, n: nat, slots: map<Param, Bytes>, param: Param)
    requires n <= |pairs| && AreSlots(check, pairs, n, slots)
    ensures param in slots <==> exists v :: Given(check, pairs, n, param, v)
  {
    hide Given;
    if param in slots { assert Given(check, pairs, n, param, slots[param]); }
  }

  lemma EmptyPairSays(check: Percent.TextCheck)
    ensures forall n, v :: !Says(check, [], n, v)
  {
  }

  /** The fault of the first pair that has one. */
  ghost predicate FirstFault(check: Percent.TextCheck, pairs: seq<Bytes>, e: UriError) {
    exists k :: 0 <= k < |pairs| && HasFault(check, pairs, k, e) && Faultless(check, pairs, k)
  }

  lemma {:induction false} PairsAreRead(check: Percent.TextCheck, pairs: seq<Bytes>, i: nat, q: Query)
    requires i <= |pairs| && Read(check, pairs, i, q)
    ensures match AddPairs(check, q, pairs[i..])
            case Err(e) => FirstFault(check, pairs, e)
            case Ok(all) => Read(check, pairs, |pairs|, all)
    decreases |pairs| - i
  {
    hide AddPair, HasFault, AreSlots, AreExtras, Faultless;
    if i < |pairs| {
      PairIsRead(check, pairs, i, q);
      assert pairs[i..][1..] == pairs[i + 1..] && pairs[i..][0] == pairs[i];
      var next := AddPair(check, q, pairs[i]);
      if next.Ok? { PairsAreRead(check, pairs, i + 1, next.value); }
    }
  }

  /** A query fails with the first fault of its pairs, or has in each slot the one value its pairs give it
      and keeps the others, names and values, in order. */
  lemma QueryIsRead(check: Percent.TextCheck, text: Bytes)
    ensures var pairs := SplitAll(text, AMPERSAND);
            match ParseQuery(check, text)
            case Err(e) => FirstFault(check, pairs, e)
            case Ok(q) => Read(check, pairs, |pairs|, q)
  {
    hide AddPairs, SplitAll, HasFault, FirstFault, Gives;
    var pairs := SplitAll(text, AMPERSAND);
    assert pairs[0..] == pairs;
    assert Read(check, pairs, 0, Query(map[], []));
    PairsAreRead(check, pairs, 0, Query(map[], []));
  }

  // ----- the configuration -------------------------------------------------------------------------------

  /** Two digits a byte, in either case. */
  ghost predicate IsHex(text: Bytes, bytes: Bytes) {
    |text| == 2 * |bytes| && forall i | 0 <= i < |bytes| :: Percent.IsEscape(text[2 * i], text[2 * i + 1], bytes[i])
  }

  lemma {:induction false} HexIsRead(text: Bytes, bytes: Bytes)
    ensures HexDecode(text) == Some(bytes) <==> IsHex(text, bytes)
    decreases |text|
  {
    hide Percent.HexNibble, Percent.IsEscape;
    if |text| >= 2 {
      var tail := text[2..];
      if bytes != [] {
        Percent.EscapeMeans(text[0], text[1], bytes[0]);
        HexIsRead(tail, bytes[1..]);
        assert bytes == [bytes[0]] + bytes[1..];
        assert IsHex(text, bytes) <==> Percent.IsEscape(text[0], text[1], bytes[0]) && IsHex(tail, bytes[1..]) by {
          HexFromFront(text, bytes);
        }
      }
    }
  }

  lemma HexFromFront(text: Bytes, bytes: Bytes)
    requires |text| >= 2 && bytes != []
    ensures IsHex(text, bytes) <==> Percent.IsEscape(text[0], text[1], bytes[0]) && IsHex(text[2..], bytes[1..])
  {
    hide Percent.IsEscape;
    var (tail, rest) := (text[2..], bytes[1..]);
    if IsHex(text, bytes) {
      assert text[2 * 0] == text[0] && text[2 * 0 + 1] == text[1];
      forall i | 0 <= i < |rest| ensures Percent.IsEscape(tail[2 * i], tail[2 * i + 1], rest[i]) {
        assert tail[2 * i] == text[2 * (i + 1)] && tail[2 * i + 1] == text[2 * (i + 1) + 1] && rest[i] == bytes[i + 1];
      }
    }
    if Percent.IsEscape(text[0], text[1], bytes[0]) && IsHex(tail, rest) {
      forall i | 0 <= i < |bytes| ensures Percent.IsEscape(text[2 * i], text[2 * i + 1], bytes[i]) {
        if i > 0 { assert text[2 * i] == tail[2 * (i - 1)] && text[2 * i + 1] == tail[2 * (i - 1) + 1] && bytes[i] == rest[i - 1]; }
      }
    }
  }

  /** What each kind makes of the parameters it was given, if any: the ones it leaves open as given or at
      their defaults, the others at its own values whatever was given. */
  ghost predicate HasParameters(c: OtpConfig, algorithm: Option<HashAlg>, digits: Option<nat>, period: Option<nat>, counter: nat, pin: Option<Bytes>) {
    match c.kind
    case Totp => c.algorithm == Or(algorithm, Sha1) && c.digits == Or(digits, 6) && c.period == Or(period, 30) && c.counter == 0 && c.pin == None
    case Hotp => c.algorithm == Or(algorithm, Sha1) && c.digits == Or(digits, 6) && c.period == 30 && c.counter == counter && c.pin == None
    case Steam => c.algorithm == Sha1 && c.digits == 5 && c.period == 30 && c.counter == 0 && c.pin == None
    case Motp => c.algorithm == Sha1 && c.digits == 6 && c.period == 10 && c.counter == 0 && c.pin == (if pin == Some([]) then None else pin)
    case Blizzard => c.algorithm == Sha1 && c.digits == 8 && c.period == 30 && c.counter == 0 && c.pin == None
    case Yandex => c.algorithm == Sha256 && c.digits == 8 && c.period == 30 && c.counter == 0 && c.pin == (if pin == Some([]) then None else pin)
  }

  /** The builder refuses a secret of no bytes or more than 1024, a digit count outside 1 to 10 and a period
      outside 1 to 3600, in this order; everything else it builds. */
  lemma BuildsExactlyWhen(kind: OtpKind, secret: Bytes, algorithm: Option<HashAlg>, digits: Option<nat>, period: Option<nat>, counter: nat, pin: Option<Bytes>)
    ensures match Build(kind, secret, algorithm, digits, period, counter, pin)
            case Ok(c) =>
              && c.kind == kind && c.secret == secret && HasParameters(c, algorithm, digits, period, counter, pin)
              && 1 <= |secret| <= 1024 && (digits.Some? ==> 1 <= digits.value <= 10) && (period.Some? ==> 1 <= period.value <= 3600)
            case Err(EmptySecret) => |secret| == 0
            case Err(SecretTooLong(n)) => n == |secret| > 1024
            case Err(InvalidDigits(n)) => digits == Some(n) && !(1 <= n <= 10) && 1 <= |secret| <= 1024
            case Err(InvalidPeriod(n)) => period == Some(n) && !(1 <= n <= 3600) && 1 <= |secret| <= 1024 && (digits.Some? ==> 1 <= digits.value <= 10)
  {
  }

  ghost function Given64(q: Query, param: Param): Option<nat> { if param in q.slots then ParseU64(q.slots[param]) else None }

  ghost function GivenHash(q: Query): Option<HashAlg> { if Algorithm in q.slots then ParseHashAlg(q.slots[Algorithm]) else None }

  /** Hexadecimal for mOTP, base32 for the others. */
  ghost function SecretBytes(kind: OtpKind, text: Bytes): Option<Bytes> {
    if kind == Motp then HexDecode(text) else if Base32.Decode(text).Ok? then Some(Base32.Decode(text).value) else None
  }

  /** Base32 for Yandex, the text itself for the others. */
  ghost function PinBytes(kind: OtpKind, text: Bytes): Option<Bytes> {
    if kind != Yandex then Some(text) else if Base32.Decode(text).Ok? then Some(Base32.Decode(text).value) else None
  }

  lemma {:induction false} HexLength(text: Bytes)
    ensures HexDecode(text).Some? ==> |text| == 2 * |HexDecode(text).value|
  {
    hide Percent.HexNibble;
    if |text| >= 2 { HexLength(text[2..]); }
  }

  lemma SecretIsRead(kind: OtpKind, text: Bytes)
    ensures var (r, b) := (DecodeField(kind.SecretEncoding(), text), SecretBytes(kind, text));
            && (r.Ok? ==> b == Some(r.value))
            && (b.Some? && 1 <= |b.value| <= 1024 ==> r == Ok(b.value))
  {
    hide HexDecode, Base32.Decode;
    HexLength(text);
  }

  lemma PinIsRead(kind: OtpKind, text: Bytes)
    ensures var (r, b) := (DecodeField(kind.PinEncoding(), text), PinBytes(kind, text));
            (r.Ok? <==> b.Some?) && (r.Ok? ==> b == Some(r.value))
  {
    hide Base32.Decode;
  }

  /** What a query has to say for there to be a configuration. */
  ghost predicate Describes(kind: OtpKind, q: Query) {
    && Secret in q.slots && SecretBytes(kind, q.slots[Secret]).Some? && 1 <= |SecretBytes(kind, q.slots[Secret]).value| <= 1024
    && (Algorithm in q.slots ==> GivenHash(q).Some?)
    && (DigitCount in q.slots ==> Given64(q, DigitCount).Some? && 1 <= Given64(q, DigitCount).value <= 10)
    && (Period in q.slots ==> Given64(q, Period).Some? && 1 <= Given64(q, Period).value <= 3600)
    && (if Counter in q.slots then Given64(q, Counter).Some? else kind != Hotp)
    && (Pin in q.slots ==> PinBytes(kind, q.slots[Pin]).Some?)
  }

  ghost function PinGiven(kind: OtpKind, q: Query): Option<Bytes> { if Pin in q.slots then PinBytes(kind, q.slots[Pin]) else None }

  lemma DescribedIsRead(kind: OtpKind, q: Query)
    requires Describes(kind, q)
    ensures Interpret(kind, q).Ok?
  {
    hide DecodeField, SecretBytes, PinBytes, ParseHashAlg, ParseU64, Normal, Build, HasParameters, Overrides, OtpKind.SecretEncoding, OtpKind.PinEncoding;
    SecretIsRead(kind, q.slots[Secret]);
    if Pin in q.slots { PinIsRead(kind, q.slots[Pin]); }
    BuildsExactlyWhen(kind, SecretBytes(kind, q.slots[Secret]).value, GivenHash(q), Given64(q, DigitCount), Given64(q, Period),
                      Or(Given64(q, Counter), 0), PinGiven(kind, q));
  }

  lemma ReadIsDescribed(kind: OtpKind, q: Query)
    requires Interpret(kind, q).Ok?
    ensures Describes(kind, q)
    ensures var c := Interpret(kind, q).value.0;
            && c.kind == kind && Some(c.secret) == SecretBytes(kind, q.slots[Secret])
            && HasParameters(c, GivenHash(q), Given64(q, DigitCount), Given64(q, Period), Or(Given64(q, Counter), 0), PinGiven(kind, q))
  {
    hide DecodeField, SecretBytes, PinBytes, ParseHashAlg, ParseU64, Normal, Build, HasParameters, Overrides, OtpKind.SecretEncoding, OtpKind.PinEncoding;
    SecretIsRead(kind, q.slots[Secret]);
    if Pin in q.slots { PinIsRead(kind, q.slots[Pin]); }
    BuildsExactlyWhen(kind, DecodeField(kind.SecretEncoding(), q.slots[Secret]).value, GivenHash(q), Given64(q, DigitCount), Given64(q, Period),
                      Or(Given64(q, Counter), 0), PinGiven(kind, q));
  }

  /** There is a configuration exactly when the query describes one, and it is made of what the query gives
      and, for what it leaves out, of the kind's defaults. */
  lemma ConfigurationIs(kind: OtpKind, q: Query)
    ensures Interpret(kind, q).Ok? <==> Describes(kind, q)
    ensures Interpret(kind, q).Ok? ==>
              var c := Interpret(kind, q).value.0;
              && c.kind == kind && Some(c.secret) == SecretBytes(kind, q.slots[Secret])
              && HasParameters(c, GivenHash(q), Given64(q, DigitCount), Given64(q, Period), Or(Given64(q, Counter), 0), PinGiven(kind, q))
  {
    hide Interpret, HasParameters;
    if Interpret(kind, q).Ok? { ReadIsDescribed(kind, q); }
    if Describes(kind, q) { DescribedIsRead(kind, q); }
  }

  /** And if there is none, the error names something that is wrong. */
  ghost predicate IsTrueOf(e: UriError, kind: OtpKind, q: Query) {
    match e
    case MissingParam(p) => p !in q.slots && (p == Secret || (p == Counter && kind == Hotp))
    case InvalidParam(p) => p in q.slots && if p == Algorithm then GivenHash(q).None? else p in {DigitCount, Period, Counter} && Given64(q, p).None?
    case BadConfig(InvalidDigits(n)) => Given64(q, DigitCount) == Some(n) && !(1 <= n <= 10)
    case BadConfig(InvalidPeriod(n)) => Given64(q, Period) == Some(n) && !(1 <= n <= 3600)
    case BadConfig(EmptySecret) => Secret in q.slots && SecretBytes(kind, q.slots[Secret]) == Some([])
    case BadConfig(SecretTooLong(n)) =>
      Secret in q.slots && if kind == Motp then n == |q.slots[Secret]| / 2 && |q.slots[Secret]| > 2048
                           else SecretBytes(kind, q.slots[Secret]).Some? && n == |SecretBytes(kind, q.slots[Secret]).value| > 1024
    case BadBase32(b) =>
      || (kind != Motp && Secret in q.slots && Base32.Decode(q.slots[Secret]) == Err(b))
      || (kind == Yandex && Pin in q.slots && Base32.Decode(q.slots[Pin]) == Err(b))
    case InvalidHexSecret => kind == Motp && Secret in q.slots && HexDecode(q.slots[Secret]).None?
    case _ => false
  }

  lemma SecretFailsWith(kind: OtpKind, q: Query)
    requires Secret in q.slots && DecodeField(kind.SecretEncoding(), q.slots[Secret]).Err?
    ensures IsTrueOf(DecodeField(kind.SecretEncoding(), q.slots[Secret]).error, kind, q)
  {
    hide HexDecode, Base32.Decode, ParseHashAlg, ParseU64;
    HexLength(q.slots[Secret]);
  }

  lemma PinFailsWith(kind: OtpKind, q: Query)
    requires Pin in q.slots && DecodeField(kind.PinEncoding(), q.slots[Pin]).Err?
    ensures IsTrueOf(DecodeField(kind.PinEncoding(), q.slots[Pin]).error, kind, q)
  {
    hide HexDecode, Base32.Decode, ParseHashAlg, ParseU64;
  }

  lemma BuildingFailsWith(kind: OtpKind, q: Query, pin: Option<Bytes>)
    requires Secret in q.slots && DecodeField(kind.SecretEncoding(), q.slots[Secret]).Ok?
    requires var secret := DecodeField(kind.SecretEncoding(), q.slots[Secret]).value;
             Build(kind, secret, GivenHash(q), Given64(q, DigitCount), Given64(q, Period), Or(Given64(q, Counter), 0), pin).Err?
    ensures var secret := DecodeField(kind.SecretEncoding(), q.slots[Secret]).value;
            IsTrueOf(BadConfig(Build(kind, secret, GivenHash(q), Given64(q, DigitCount), Given64(q, Period), Or(Given64(q, Counter), 0), pin).error), kind, q)
  {
    hide HexDecode, Base32.Decode, ParseHashAlg, ParseU64, Build, Normal, HasParameters, GivenHash, Given64;
    HexLength(q.slots[Secret]);
    var secret := DecodeField(kind.SecretEncoding(), q.slots[Secret]).value;
    SecretIsRead(kind, q.slots[Secret]);
    BuildsExactlyWhen(kind, secret, GivenHash(q), Given64(q, DigitCount), Given64(q, Period), Or(Given64(q, Counter), 0), pin);
  }

  lemma ConfigurationFailsTruly(kind: OtpKind, q: Query)
    requires Interpret(kind, q).Err?
    ensures IsTrueOf(Interpret(kind, q).error, kind, q)
  {
    hide DecodeField, ParseHashAlg, ParseU64, Normal, Build, Overrides, SecretBytes, HexDecode, Base32.Decode;
    if Secret in q.slots {
      var secret := DecodeField(kind.SecretEncoding(), q.slots[Secret]);
      var pin := if Pin in q.slots && DecodeField(kind.PinEncoding(), q.slots[Pin]).Ok? then Some(DecodeField(kind.PinEncoding(), q.slots[Pin]).value) else None;
      if Pin in q.slots && DecodeField(kind.PinEncoding(), q.slots[Pin]).Err? { PinFailsWith(kind, q); }
      if secret.Err? {
        SecretFailsWith(kind, q);
      } else if Build(kind, secret.value, GivenHash(q), Given64(q, DigitCount), Given64(q, Period), Or(Given64(q, Counter), 0), pin).Err? {
        BuildingFailsWith(kind, q, pin);
      }
    }
  }

  // ----- the whole URI -----------------------------------------------------------------------------------

  /** The stages a text goes through. */
  ghost predicate Staged(check: Percent.TextCheck, input: Bytes) {
    && |input| <= 4096 && Locate(input).Ok?
    && DecodeLabel(check, Locate(input).value.name).Ok?
    && ParseQuery(check, Locate(input).value.query).Ok?
    && Interpret(Locate(input).value.kind, ParseQuery(check, Locate(input).value.query).value).Ok?
  }

  ghost predicate GivesIssuer(q: Query) { Issuer in q.slots && q.slots[Issuer] != [] }

  /** A parsed model has the account of the label and the vendor's parameters of the query.  Its issuer is the
      parameter's if there is one, and otherwise the label's; the two are reported exactly when both are there
      and differ.  A fragment is reported exactly when there is one. */
  lemma ModelIs(check: Percent.TextCheck, input: Bytes)
    requires Parse(check, input).Ok?
    ensures Staged(check, input)
    ensures var (u, warnings) := Parse(check, input).value;
            var located := Locate(input).value;
            var (issuer, account) := DecodeLabel(check, located.name).value;
            var q := ParseQuery(check, located.query).value;
            && u.account == account && u.extra == q.extra && u.config == Interpret(located.kind, q).value.0
            && u.issuer == (if GivesIssuer(q) then Some(q.slots[Issuer]) else issuer)
            && |ToUri(u)| <= 4096
            && (forall a, b :: IssuerMismatch(a, b) in warnings <==> issuer == Some(a) && GivesIssuer(q) && q.slots[Issuer] == b && a != b)
            && (FragmentIgnored in warnings <==> located.fragment)
            && (forall p :: IgnoredParam(p) in warnings <==> IgnoredParam(p) in Interpret(located.kind, q).value.1)
  {
    hide Locate, DecodeLabel, ParseQuery, Interpret, ToUri, Percent.Decode;
    var located := Locate(input).value;
    var q := ParseQuery(check, located.query).value;
    var (issuer, _) := DecodeLabel(check, located.name).value;
    var fragment := if located.fragment then [FragmentIgnored] else [];
    var overridden := Interpret(located.kind, q).value.1;
    var mismatch := ChooseIssuer(issuer, NonEmpty(Slot(q, Issuer))).1;
    OnlyIgnored(located.kind, q);
    forall w: UriWarning ensures w in Parse(check, input).value.1 <==> w in fragment || w in overridden || w in mismatch {
      InEither(fragment + overridden, mismatch, w);
      InEither(fragment, overridden, w);
    }
  }

  predicate AllIgnored(warnings: seq<UriWarning>) { forall i | 0 <= i < |warnings| :: warnings[i].IgnoredParam? }

  lemma BothIgnored(a: seq<UriWarning>, b: seq<UriWarning>)
    requires AllIgnored(a) && AllIgnored(b)
    ensures AllIgnored(a + b)
  {
  }

  lemma WarnIgnored(condition: bool, param: Param)
    ensures AllIgnored(Warn(condition, param))
  {
  }

  lemma OverridesAreIgnored(kind: OtpKind, algorithm: Option<HashAlg>, digits: Option<nat>, period: Option<nat>, counter: Option<nat>, pin: Option<Bytes>)
    ensures AllIgnored(Overrides(kind, algorithm, digits, period, counter, pin))
  {
    hide Overridden, Warn, AllIgnored;
    var (a, b, c, d, e) := (Warn(Overridden(algorithm, kind.FixedAlgorithm()), Algorithm), Warn(Overridden(digits, kind.FixedDigits()), DigitCount),
                            Warn(Overridden(period, kind.FixedPeriod()), Period), Warn(counter.Some? && !kind.UsesCounter(), Counter),
                            Warn(pin.Some? && !kind.UsesPin(), Pin));
    forall condition, param ensures AllIgnored(Warn(condition, param)) { WarnIgnored(condition, param); }
    BothIgnored(a, b);
    BothIgnored(a + b, c);
    BothIgnored(a + b + c, d);
    BothIgnored(a + b + c + d, e);
  }

  lemma OnlyIgnored(kind: OtpKind, q: Query)
    requires Interpret(kind, q).Ok?
    ensures AllIgnored(Interpret(kind, q).value.1)
  {
    hide DecodeField, DecodeAlgorithm, ParseNumber, Normal, Build, Overrides, AllIgnored;
    var (digits, period, counter) := (ParseNumber(q, DigitCount).value, ParseNumber(q, Period).value, ParseNumber(q, Counter).value);
    var pin := if Pin in q.slots then Some(DecodeField(kind.PinEncoding(), q.slots[Pin]).value) else None;
    OverridesAreIgnored(kind, DecodeAlgorithm(q).value, digits, period, counter, pin);
  }

  /** What does not parse is too long, or fails at the first of the stages that does, or is a model that
      could not be printed within the cap. */
  lemma ParseFailsTruly(check: Percent.TextCheck, input: Bytes)
    requires Parse(check, input).Err?
    ensures var e := Parse(check, input).error;
            if |input| > 4096 then e == TooLong(|input|)
            else if Locate(input).Err? then e == Locate(input).error
            else
              var (located, names) := (Locate(input).value, DecodeLabel(check, Locate(input).value.name));
              var q := ParseQuery(check, located.query);
              if names.Err? then e == names.error
              else if q.Err? then e == q.error
              else if Interpret(located.kind, q.value).Err? then e == Interpret(located.kind, q.value).error
              else
                var u := OtpUri(Interpret(located.kind, q.value).value.0, if GivesIssuer(q.value) then Some(q.value.slots[Issuer]) else names.value.0,
                                names.value.1, q.value.extra);
                e == CanonicalTooLong(|ToUri(u)|) && |ToUri(u)| > 4096
  {
    hide Locate, DecodeLabel, ParseQuery, Interpret, ToUri;
  }

  /** A printed URI states the parameters its kind leaves open and no others, the issuer twice, and the
      vendor's own as they were. */
  lemma PrintedParametersAre(check: Percent.TextCheck, u: OtpUri)
    requires PlainTextPasses(check) && WellFormed(check, u)
    ensures Locate(ToUri(u)).Ok? && ParseQuery(check, Locate(ToUri(u)).value.query).Ok?
    ensures var (located, c) := (Locate(ToUri(u)).value, u.config);
            var q := ParseQuery(check, located.query).value;
            && located.kind == (if c.kind == Blizzard then Totp else c.kind) && !located.fragment
            && DecodeLabel(check, located.name) == Ok((u.issuer, u.account)) && q.extra == u.extra
            && Secret in q.slots && SecretBytes(located.kind, q.slots[Secret]) == Some(c.secret)
            && Slot(q, Issuer) == u.issuer
            && Slot(q, Algorithm) == (if located.kind in {Totp, Hotp} then Some(c.algorithm.Name()) else None)
            && Slot(q, DigitCount) == (if located.kind in {Totp, Hotp} then Some(Digits(c.digits)) else None)
            && Slot(q, Period) == (if located.kind == Totp then Some(Digits(c.period)) else None)
            && Slot(q, Counter) == (if located.kind == Hotp then Some(Digits(c.counter)) else None)
            && (Pin in q.slots <==> c.pin.Some?) && (c.pin.Some? ==> PinBytes(located.kind, q.slots[Pin]) == c.pin)
  {
    hide AllRead, QueryOf, Meant, Written, Locate, DecodeLabel, ParseQuery, PlainTextPasses, Join, PairTexts, AddAll, LabelText, ExtraFits, Normal,
         DecodeField, EncodeField, Digits, Base32.Decode, HexDecode, MeantPin, HashAlg.Name;
    var query := Join(PairTexts(Written(u)), AMPERSAND);
    WrittenReads(check, u);
    assert Written(u) != [] by { WroteSomething(u); }
    QueryReads(check, Written(u), Meant(u));
    MeantFillsQuery(check, u);
    LocatesBack(u, query);
    LabelReadsBack(check, u);
    SlotsOf(u);
    QueryKeepsExtra(u);
    WrittenSecret(u);
    assert Locate(ToUri(u)) == Ok(Located(u.config.kind.SerializesAs(), LabelText(u), query, false));
  }

  lemma WrittenSecret(u: OtpUri)
    requires Normal(u.config) && |ToUri(u)| <= MAX_URI_LEN
    ensures var kind := u.config.kind.SerializesAs();
            && SecretBytes(kind, EncodeField(kind.SecretEncoding(), u.config.secret)) == Some(u.config.secret)
            && (u.config.pin.Some? ==> PinBytes(kind, MeantPin(u.config)) == u.config.pin)
  {
    hide Base32.Encode, Base32.Decode, HexDecode, HexEncode, ToUri, EncodeField, MeantPin;
    var kind := u.config.kind.SerializesAs();
    ExportKeepsTheToken(u.config);
    SecretFits(u.config.secret);
    FieldRoundTrips(kind.SecretEncoding(), u.config.secret);
    SecretIsRead(kind, EncodeField(kind.SecretEncoding(), u.config.secret));
    if u.config.pin.Some? {
      PinRoundTrips(u);
      PinIsRead(kind, MeantPin(u.config));
    }
  }
}
