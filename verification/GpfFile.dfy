/** A whole project file: what is written, and what reading it gives back. */
module GpfFile {
  import opened Basics
  import opened Decimals
  import opened Utf8
  import opened GpfText
  import opened GpfHeader
  import opened GpfHeaderRoundTrip
  import opened GpfContainer

  const FIELD_MODE := "mode"
  const FIELD_FORMAT := "format"
  const FIELD_KEYS := "keys"
  const FIELD_REALM := "realm"

  /** What opening a sealed payload gives: its plaintext, the wrong key, or damage. */
  datatype Opened = Plaintext(bytes: Bytes) | WrongKey | Damaged

  /** The scrypt cost a writer gets when it names none, and the most a reader pays, as powers of two. */
  const DEFAULT_WORK_FACTOR: int := 18
  const MAX_WORK_FACTOR: int := 20

  /** The document encoding and the two ways to seal, as values of the functions they are; a password at a cost. */
  datatype Codec<!Doc> = Codec(
    encode: Doc -> Option<Bytes>,
    decode: Bytes -> Option<Doc>,
    sealPassword: (string, int, Bytes) -> Bytes,
    sealKeys: (seq<int>, Bytes) -> Bytes,
    openPassword: (string, Bytes) -> Opened,
    openKeys: (seq<int>, Bytes) -> Opened)

  datatype WriteOptions = WriteOptions(header: Option<Fields>, passphrase: string, recipients: seq<int>,
                                       workFactor: int, footer: Option<Fields>)

  datatype ReadOptions = ReadOptions(passphrase: string, identities: seq<int>, realm: string)

  datatype File<Doc> = File(header: Fields, footer: Fields, document: Doc, mode: string)

  // ---------------------------------------------------------------- modes

  function ModeOf(flags: nat): string {
    if !Encrypted(flags) then "plain" else if Passphrase(flags) then "password" else "identity"
  }

  function Get(f: Fields, name: string): string {
    if name in f.values then f.values[name] else ""
  }

  predicate ModeAgrees(f: Fields, flags: nat) {
    Get(f, FIELD_MODE) == "" || Get(f, FIELD_MODE) == ModeOf(flags)
  }

  predicate RealmAgrees(f: Fields, local: string) {
    local == "" || Get(f, FIELD_REALM) == "" || Get(f, FIELD_REALM) == local
  }

  // -------------------------------------------------------------- sealing

  function WorkFactor(w: WriteOptions): int {
    if w.workFactor > 0 then w.workFactor else DEFAULT_WORK_FACTOR
  }

  function Wrap<Doc>(codec: Codec<Doc>, encoded: Bytes, w: WriteOptions): Read<(Bytes, nat)> {
    if w.passphrase != "" && w.recipients != [] then Err(BothKinds)
    else if w.passphrase != "" then
      Ok((codec.sealPassword(w.passphrase, WorkFactor(w), encoded), FLAG_ENCRYPTED + FLAG_PASSPHRASE))
    else if w.recipients != [] then Ok((codec.sealKeys(w.recipients, encoded), FLAG_ENCRYPTED))
    else Ok((encoded, 0))
  }

  function Unwrap<Doc>(codec: Codec<Doc>, payload: Bytes, flags: nat, r: ReadOptions): Read<Bytes> {
    if !Encrypted(flags) then Ok(payload)
    else if Passphrase(flags) && r.passphrase == "" then Err(PasswordRequired)
    else if !Passphrase(flags) && r.identities == [] then Err(IdentityRequired)
    else
      var outcome := if Passphrase(flags) then codec.openPassword(r.passphrase, payload)
                    else codec.openKeys(r.identities, payload);
      match outcome
      case WrongKey => Err(if Passphrase(flags) then WrongPassword else IdentityRequired)
      case Damaged => Err(Undecryptable)
      case Plaintext(bytes) => if |bytes| > MAX_PAYLOAD then Err(Malformed) else Ok(bytes)
  }

  // ---------------------------------------------------------------- blocks

  /** The block that is written: the caller's, with the lines a reader could be misled by set from what happened. */
  function HeaderOf(w: WriteOptions, flags: nat): Fields {
    var given := w.header.GetOr(NoFields);
    var stated := SetField(SetField(SetField(given, FIELD_KEYS, ""), FIELD_FORMAT, "1"), FIELD_MODE, ModeOf(flags));
    if Encrypted(flags) && !Passphrase(flags)
    then SetField(stated, FIELD_KEYS, Decimal(|w.recipients|) + " recipients") else stated
  }

  function DefaultFooter(header: Fields): Fields {
    SetField(SetField(NoFields, FIELD_FORMAT, Get(header, FIELD_FORMAT)), FIELD_MODE, Get(header, FIELD_MODE))
  }

  function FooterOf(w: WriteOptions, flags: nat): Fields {
    w.footer.GetOr(DefaultFooter(HeaderOf(w, flags)))
  }

  ghost predicate Tidy(w: WriteOptions) {
    (w.header.Some? ==> Sound(w.header.value)) && (w.footer.Some? ==> Sound(w.footer.value))
  }

  // ------------------------------------------------------ writing, reading

  /** The bytes of a written block. */
  ghost function Written(f: Fields): Bytes
    requires Sound(f)
  {
    Utf8.Encode(Unlines(BlockLines(f)))
  }

  ghost function Block(f: Fields): Option<Bytes>
    requires Sound(f)
  {
    if Writable(f) then Some(Written(f)) else None
  }

  ghost function EncodeFile<Doc>(codec: Codec<Doc>, doc: Doc, w: WriteOptions): Read<Bytes>
    requires Tidy(w)
  {
    var encoded := codec.encode(doc);
    if encoded.None? then Err(BadDocument)
    else
      var wrapped := Wrap(codec, encoded.value, w);
      if wrapped.Err? then Err(wrapped.refusal)
      else
        var (sealed, flags) := wrapped.value;
        BlocksAreSound(w, flags);
        var header, footer := Block(HeaderOf(w, flags)), Block(FooterOf(w, flags));
        if header.None? || |header.value| > MAX_HEADER || footer.None? || |footer.value| > MAX_FOOTER
        then Err(Malformed)
        else Ok(Assembled(flags, header.value, sealed, footer.value))
  }

  function Assembled(flags: nat, header: Bytes, sealed: Bytes, footer: Bytes): Bytes {
    WritePreheader(Preheader(VERSION, flags, |header|)) + header + WriteChunk(CHUNK_PAYLOAD, sealed) + footer
    + WriteLocator(|footer|)
  }

  function DecodeFile<Doc>(codec: Codec<Doc>, data: Bytes, r: ReadOptions): Read<File<Doc>> {
    var head := ReadPreheader(data);
    if head.Err? then Err(head.refusal)
    else
      var end := PREHEADER_SIZE + head.value.headerLen;
      var header := Parse(data[PREHEADER_SIZE..end]);
      if header.None? || !ModeAgrees(header.value, head.value.flags) then Err(Malformed)
      else if !RealmAgrees(header.value, r.realm) then Err(WrongRealm(Get(header.value, FIELD_REALM), r.realm))
      else
        var tail := ReadFooterRegion(data, end);
        if tail.Err? then Err(tail.refusal)
        else
          var footer := Parse(tail.value.0);
          if footer.None? then Err(Malformed)
          else
            var payload := Walk(tail.value.1, None);
            if payload.Err? then Err(payload.refusal)
            else
              var plain := Unwrap(codec, payload.value, head.value.flags, r);
              if plain.Err? then Err(plain.refusal)
              else
                var doc := codec.decode(plain.value);
                if doc.None? then Err(BadDocument)
                else Ok(File(header.value, footer.value, doc.value, ModeOf(head.value.flags)))
  }

  // --------------------------------------------------------------- proofs

  lemma SetGets(f: Fields, name: string, value: string)
    requires value != "" && Tight(value)
    ensures Get(SetField(f, name, value), name) == value
    ensures forall other :: other != name ==> Get(SetField(f, name, value), other) == Get(f, other)
  {
  }

  lemma ClearGets(f: Fields, name: string)
    ensures Get(SetField(f, name, ""), name) == ""
    ensures forall other :: other != name ==> Get(SetField(f, name, ""), other) == Get(f, other)
  {
  }

  lemma DecimalIsTight(n: nat)
    ensures Decimal(n) + " recipients" != "" && Tight(Decimal(n) + " recipients")
  {
  }

  lemma BlocksAreSound(w: WriteOptions, flags: nat)
    requires Tidy(w)
    ensures Sound(HeaderOf(w, flags)) && Sound(FooterOf(w, flags))
  {
    hide Sound, SetField;
    NothingIsSound();
    var given := w.header.GetOr(NoFields);
    SetKeepsSound(given, FIELD_KEYS, "");
    SetKeepsSound(SetField(given, FIELD_KEYS, ""), FIELD_FORMAT, "1");
    var stated := SetField(SetField(given, FIELD_KEYS, ""), FIELD_FORMAT, "1");
    SetKeepsSound(stated, FIELD_MODE, ModeOf(flags));
    SetKeepsSound(SetField(stated, FIELD_MODE, ModeOf(flags)), FIELD_KEYS, Decimal(|w.recipients|) + " recipients");
    var header := HeaderOf(w, flags);
    SetKeepsSound(NoFields, FIELD_FORMAT, Get(header, FIELD_FORMAT));
    SetKeepsSound(SetField(NoFields, FIELD_FORMAT, Get(header, FIELD_FORMAT)), FIELD_MODE, Get(header, FIELD_MODE));
  }

  /**
   * The block states the mode the flags mean and its format, says how many keys a file sealed to keys has and nothing
   * of keys otherwise, and keeps every other line of the caller's. A footer nobody gave repeats mode and format.
   */
  lemma HeaderStates(w: WriteOptions, flags: nat)
    ensures var h := HeaderOf(w, flags);
            && Get(h, "mode") == (if flags % 2 == 0 then "plain"
                                  else if flags / 2 % 2 == 1 then "password" else "identity")
            && Get(h, "format") == "1"
            && (Get(h, "keys") == if flags % 2 == 1 && flags / 2 % 2 == 0 then Decimal(|w.recipients|) + " recipients"
                                  else "")
    ensures forall name :: name !in {"mode", "format", "keys"} ==>
              Get(HeaderOf(w, flags), name) == Get(w.header.GetOr(NoFields), name)
    ensures w.footer.Some? ==> FooterOf(w, flags) == w.footer.value
    ensures w.footer.None? ==>
              var f := FooterOf(w, flags);
              f.order == ["format", "mode"] && f.values == map["format" := "1", "mode" := ModeOf(flags)]
  {
    hide SetField, Get;
    var given := w.header.GetOr(NoFields);
    ClearGets(given, FIELD_KEYS);
    SetGets(SetField(given, FIELD_KEYS, ""), FIELD_FORMAT, "1");
    var stated := SetField(SetField(given, FIELD_KEYS, ""), FIELD_FORMAT, "1");
    SetGets(stated, FIELD_MODE, ModeOf(flags));
    DecimalIsTight(|w.recipients|);
    SetGets(SetField(stated, FIELD_MODE, ModeOf(flags)), FIELD_KEYS, Decimal(|w.recipients|) + " recipients");
    assert FIELD_KEYS != FIELD_MODE && FIELD_KEYS != FIELD_FORMAT && FIELD_MODE != FIELD_FORMAT;
    StatedFooter(HeaderOf(w, flags), ModeOf(flags));
  }

  lemma StatedFooter(header: Fields, mode: string)
    requires Get(header, FIELD_FORMAT) == "1" && Get(header, FIELD_MODE) == mode
    requires mode in {"plain", "password", "identity"}
    ensures DefaultFooter(header) == Fields([FIELD_FORMAT, FIELD_MODE], map[FIELD_FORMAT := "1", FIELD_MODE := mode])
  {
    hide Get;
  }

  /** Where everything is in an assembled file. */
  lemma AssembledParts(flags: nat, header: Bytes, sealed: Bytes, footer: Bytes)
    requires flags in {0, FLAG_ENCRYPTED, FLAG_ENCRYPTED + FLAG_PASSPHRASE}
    requires |header| <= MAX_HEADER && |footer| <= MAX_FOOTER
    ensures var data := Assembled(flags, header, sealed, footer);
            var end := PREHEADER_SIZE + |header|;
            && ReadPreheader(data) == Ok(Preheader(VERSION, flags, |header|)) && end <= |data|
            && data[PREHEADER_SIZE..end] == header
            && ReadFooterRegion(data, end) == Ok((footer, WriteChunk(CHUNK_PAYLOAD, sealed)))
  {
    hide ReadPreheader, WritePreheader, ReadFooterRegion, WriteChunk, WriteLocator;
    var head := Preheader(VERSION, flags, |header|);
    var chunk := WriteChunk(CHUNK_PAYLOAD, sealed);
    var front := WritePreheader(head) + header;
    var data := Assembled(flags, header, sealed, footer);
    assert data == WritePreheader(head) + (header + chunk + footer + WriteLocator(|footer|));
    PreheaderRoundTrip(head, header + chunk + footer + WriteLocator(|footer|));
    assert data == front + chunk + footer + WriteLocator(|footer|);
    FooterRoundTrip(front, chunk, footer);
  }

  /** Every name in both blocks survives being read. */
  ghost predicate NamesSurvive(w: WriteOptions, flags: nat) {
    AllReadable(HeaderOf(w, flags)) && AllReadable(FooterOf(w, flags))
  }

  /** Bit 0 says that the payload is sealed and bit 1 that a password opens it; both kinds of key are refused. */
  lemma WrapFlags<Doc>(codec: Codec<Doc>, encoded: Bytes, w: WriteOptions)
    ensures Wrap(codec, encoded, w)
            == if w.passphrase == "" && w.recipients == [] then Ok((encoded, 0))
               else if w.recipients == [] then
                 Ok((codec.sealPassword(w.passphrase, if w.workFactor > 0 then w.workFactor else 18, encoded), 3))
               else if w.passphrase == "" then Ok((codec.sealKeys(w.recipients, encoded), 1)) else Err(BothKinds)
  {
  }

  /** What reading makes of a payload that was found. */
  function Finish<Doc>(codec: Codec<Doc>, payload: Bytes, flags: nat, r: ReadOptions, header: Fields, footer: Fields):
      Read<File<Doc>>
  {
    var plain := Unwrap(codec, payload, flags, r);
    if plain.Err? then Err(plain.refusal)
    else
      var doc := codec.decode(plain.value);
      if doc.None? then Err(BadDocument) else Ok(File(header, footer, doc.value, ModeOf(flags)))
  }

  /** What a reader finds in these bytes, up to the payload. */
  ghost predicate Found(data: Bytes, head: Preheader, header: Fields, footer: Bytes, region: Bytes, kept: Fields,
                        payload: Bytes)
  {
    && ReadPreheader(data) == Ok(head) && PREHEADER_SIZE + head.headerLen <= |data|
    && Parse(data[PREHEADER_SIZE..PREHEADER_SIZE + head.headerLen]) == Some(header) && ModeAgrees(header, head.flags)
    && ReadFooterRegion(data, PREHEADER_SIZE + head.headerLen) == Ok((footer, region))
    && Parse(footer) == Some(kept) && Walk(region, None) == Ok(payload)
  }

  lemma DecodeSteps<Doc>(codec: Codec<Doc>, data: Bytes, r: ReadOptions, head: Preheader, header: Fields,
                         footer: Bytes, region: Bytes, kept: Fields, payload: Bytes)
    ensures Found(data, head, header, footer, region, kept, payload) ==>
              DecodeFile(codec, data, r)
              == if RealmAgrees(header, r.realm) then Finish(codec, payload, head.flags, r, header, kept)
                 else Err(WrongRealm(Get(header, FIELD_REALM), r.realm))
  {
    hide ReadPreheader, Parse, ReadFooterRegion, Walk, Unwrap, ModeAgrees, RealmAgrees, Get, ModeOf;
  }

  lemma WrittenReads(f: Fields)
    requires Sound(f) && Writable(f)
    ensures Parse(Written(f)) == Some(f) <==> AllReadable(f)
  {
    hide Sound, Parse, AllReadable, Writable, Utf8.Encode, Unlines;
    SoundCovers(f);
    HeaderRoundTrip(f);
  }

  lemma SoundCovers(f: Fields)
    requires Sound(f)
    ensures forall i :: 0 <= i < |f.order| ==> f.order[i] in f.values
  {
  }

  /** The file that was written, as its parts. */
  lemma WrittenParts<Doc>(codec: Codec<Doc>, doc: Doc, w: WriteOptions, encoded: Bytes)
    requires Tidy(w) && codec.encode(doc) == Some(encoded)
    ensures EncodeFile(codec, doc, w).Ok? ==> Wrap(codec, encoded, w).Ok?
    ensures EncodeFile(codec, doc, w).Ok? ==>
            var (sealed, flags) := Wrap(codec, encoded, w).value;
            && Sound(HeaderOf(w, flags)) && Sound(FooterOf(w, flags))
            && Writable(HeaderOf(w, flags)) && Writable(FooterOf(w, flags))
            && var (header, footer) := (Written(HeaderOf(w, flags)), Written(FooterOf(w, flags)));
               && |header| <= MAX_HEADER && |footer| <= MAX_FOOTER
               && EncodeFile(codec, doc, w) == Ok(Assembled(flags, header, sealed, footer))
  {
    hide HeaderOf, FooterOf, Writable, Sound, Assembled, Written;
    if EncodeFile(codec, doc, w).Ok? {
      BlocksAreSound(w, Wrap(codec, encoded, w).value.1);
    }
  }

  /** The school the writer states; empty when it states none. */
  function Realm(w: WriteOptions): (realm: string)
    ensures w.header.Some? && "realm" in w.header.value.values ==> realm == w.header.value.values["realm"]
    ensures w.header.None? || "realm" !in w.header.value.values ==> realm == ""
  {
    Get(w.header.GetOr(NoFields), FIELD_REALM)
  }

  /** When a file can be written, and why it is refused when it cannot. */
  lemma WrittenExactly<Doc>(codec: Codec<Doc>, doc: Doc, w: WriteOptions)
    requires Tidy(w)
    ensures codec.encode(doc) == None <==> EncodeFile(codec, doc, w) == Err(BadDocument)
    ensures codec.encode(doc).Some? && w.passphrase != "" && w.recipients != [] ==>
              EncodeFile(codec, doc, w) == Err(BothKinds)
    ensures codec.encode(doc).Some? && (w.passphrase == "" || w.recipients == []) ==>
              var flags := if w.passphrase != "" then 3 else if w.recipients != [] then 1 else 0;
              var (header, footer) := (HeaderOf(w, flags), FooterOf(w, flags));
              && Sound(header) && Sound(footer)
              && if Writable(header) && Writable(footer) && |Written(header)| <= 0x10_0000
                    && |Written(footer)| <= 0x1_0000
                 then EncodeFile(codec, doc, w).Ok? else EncodeFile(codec, doc, w) == Err(Malformed)
  {
    hide HeaderOf, FooterOf, Writable, Sound, Assembled, Written;
    BlocksAreSound(w, 0);
    BlocksAreSound(w, 1);
    BlocksAreSound(w, 3);
    if codec.encode(doc).Some? {
      WrapFlags(codec, codec.encode(doc).value, w);
    }
  }

  /** The file could be written, its names survive, and its sealed payload is within the cap. */
  ghost predicate Sent<Doc>(codec: Codec<Doc>, doc: Doc, w: WriteOptions, encoded: Bytes)
    requires Tidy(w)
  {
    && EncodeFile(codec, doc, w).Ok? && Wrap(codec, encoded, w).Ok?
    && |Wrap(codec, encoded, w).value.0| <= MAX_PAYLOAD && NamesSurvive(w, Wrap(codec, encoded, w).value.1)
  }

  /**
   * What any reader gets from a file whose names survive and whose payload is within the cap: another school's file
   * is refused before any key is tried, and otherwise the key decides.
   */
  lemma WrittenFileReads<Doc>(codec: Codec<Doc>, doc: Doc, w: WriteOptions, r: ReadOptions, encoded: Bytes)
    requires Tidy(w) && codec.encode(doc) == Some(encoded)
    ensures Sent(codec, doc, w, encoded) ==>
              var (sealed, flags) := Wrap(codec, encoded, w).value;
              var stated := Realm(w);
              DecodeFile(codec, EncodeFile(codec, doc, w).value, r)
              == if stated == "" || r.realm == "" || stated == r.realm
                 then Finish(codec, sealed, flags, r, HeaderOf(w, flags), FooterOf(w, flags))
                 else Err(WrongRealm(stated, r.realm))
  {
    hide HeaderOf, FooterOf, Writable, Sound, Assembled, Written, Wrap, EncodeFile, DecodeFile;
    hide Parse, Walk, Unwrap, Get, AllReadable, Finish, ReadPreheader, ReadFooterRegion, WriteChunk;
    if !Sent(codec, doc, w, encoded) { return; }
    WrittenParts(codec, doc, w, encoded);
    WrapFlags(codec, encoded, w);
    var (sealed, flags) := Wrap(codec, encoded, w).value;
    HeaderStates(w, flags);
    assert Get(HeaderOf(w, flags), FIELD_REALM) == Realm(w) && Get(HeaderOf(w, flags), FIELD_MODE) == ModeOf(flags);
    var header, footer := HeaderOf(w, flags), FooterOf(w, flags);
    var headerBytes, footerBytes := Written(header), Written(footer);
    WrittenReads(header);
    WrittenReads(footer);
    AssembledParts(flags, headerBytes, sealed, footerBytes);
    PayloadRoundTrip(sealed);
    DecodeSteps(codec, Assembled(flags, headerBytes, sealed, footerBytes), r, Preheader(VERSION, flags, |headerBytes|),
                header, footerBytes, WriteChunk(CHUNK_PAYLOAD, sealed), footer, sealed);
  }

  // ----------------------------------------------------------------- keys

  /**
   * Sealing and opening are inverse for the right key, and say so of a wrong one. A password that was made costlier
   * than a reader pays for is not tried at all.
   */
  ghost predicate Lawful<Doc(!new)>(codec: Codec<Doc>, fits: (int, int) -> bool) {
    && (forall p, n, q, b :: codec.openPassword(q, codec.sealPassword(p, n, b))
                             == if n > MAX_WORK_FACTOR then Damaged else if p == q then Plaintext(b) else WrongKey)
    && (forall ids, rs, b :: codec.openKeys(ids, codec.sealKeys(rs, b))
                             == if AnyFits(ids, rs, fits) then Plaintext(b) else WrongKey)
  }

  ghost predicate AnyFits(ids: seq<int>, rs: seq<int>, fits: (int, int) -> bool) {
    exists i, j :: 0 <= i < |ids| && 0 <= j < |rs| && fits(ids[i], rs[j])
  }

  /** Whether this reader has what opens the file, as far as its keys go. */
  ghost predicate HasKey(w: WriteOptions, r: ReadOptions, fits: (int, int) -> bool) {
    if w.passphrase != "" then r.passphrase == w.passphrase
    else w.recipients == [] || AnyFits(r.identities, w.recipients, fits)
  }

  /** A reader pays for opening it: it is not sealed to a password at too high a cost. */
  predicate Affordable(w: WriteOptions) {
    w.passphrase == "" || WorkFactor(w) <= MAX_WORK_FACTOR
  }

  /** What opens the file is there, and is tried. */
  ghost predicate Opens(w: WriteOptions, r: ReadOptions, fits: (int, int) -> bool) {
    HasKey(w, r, fits) && Affordable(w)
  }

  /** Why a reader is refused: no password at all, one that is not tried, a wrong one, or no key. */
  function KeyRefusal(w: WriteOptions, r: ReadOptions): Refusal {
    if w.passphrase == "" then IdentityRequired
    else if r.passphrase == "" then PasswordRequired
    else if !Affordable(w) then Undecryptable
    else WrongPassword
  }

  lemma KeysDecide<Doc(!new)>(codec: Codec<Doc>, fits: (int, int) -> bool, encoded: Bytes, w: WriteOptions,
                                r: ReadOptions)
    requires Lawful(codec, fits) && Wrap(codec, encoded, w).Ok?
    ensures var (sealed, flags) := Wrap(codec, encoded, w).value;
            Unwrap(codec, sealed, flags, r)
            == if !Opens(w, r, fits) then Err(KeyRefusal(w, r))
               else if Encrypted(flags) && |encoded| > MAX_PAYLOAD then Err(Malformed) else Ok(encoded)
  {
  }

  /**
   * The round trip: for a reader of the same school, or of no stated one, a file that could be written reads back as
   * the document it was made of, with both blocks in their order and its mode, exactly when the reader has the key and
   * the file is not sealed to a password at a cost above what it pays.
   */
  lemma FileRoundTrip<Doc(!new)>(codec: Codec<Doc>, fits: (int, int) -> bool, doc: Doc, w: WriteOptions, r: ReadOptions,
                                 encoded: Bytes)
    requires Tidy(w) && codec.encode(doc) == Some(encoded) && codec.decode(encoded) == Some(doc) && Lawful(codec, fits)
    requires |encoded| <= MAX_PAYLOAD && (Realm(w) == "" || r.realm == "" || Realm(w) == r.realm)
    ensures Sent(codec, doc, w, encoded) ==>
              var flags := Wrap(codec, encoded, w).value.1;
              var read := DecodeFile(codec, EncodeFile(codec, doc, w).value, r);
              var back := File(HeaderOf(w, flags), FooterOf(w, flags), doc, ModeOf(flags));
              && (w.passphrase == "" && w.recipients == [] ==> read == Ok(back) && back.mode == "plain")
              && (w.passphrase == "" && w.recipients != [] ==>
                    && back.mode == "identity"
                    && read == if exists i, j :: 0 <= i < |r.identities| && 0 <= j < |w.recipients|
                                                 && fits(r.identities[i], w.recipients[j])
                               then Ok(back) else Err(IdentityRequired))
              && (w.passphrase != "" ==>
                    && back.mode == "password"
                    && read == if r.passphrase == "" then Err(PasswordRequired)
                               else if w.workFactor > 20 then Err(Undecryptable)
                               else if r.passphrase == w.passphrase then Ok(back) else Err(WrongPassword))
  {
    hide HeaderOf, FooterOf, EncodeFile, DecodeFile, Wrap, Unwrap, AllReadable, Lawful, Sound, Get;
    if Sent(codec, doc, w, encoded) {
      WrittenFileReads(codec, doc, w, r, encoded);
      KeysDecide(codec, fits, encoded, w, r);
      WrapFlags(codec, encoded, w);
    }
  }

  /** A password file one step costlier than a reader pays for is refused to the very holder of its password. */
  lemma CostlyPasswordIsRefused<Doc(!new)>(codec: Codec<Doc>, fits: (int, int) -> bool, doc: Doc, w: WriteOptions,
                                           r: ReadOptions, encoded: Bytes)
    requires Tidy(w) && codec.encode(doc) == Some(encoded) && codec.decode(encoded) == Some(doc) && Lawful(codec, fits)
    requires |encoded| <= MAX_PAYLOAD && (Realm(w) == "" || r.realm == "" || Realm(w) == r.realm)
    requires w.passphrase != "" && r.passphrase == w.passphrase && w.workFactor == 21
    ensures HasKey(w, r, fits)
    ensures Sent(codec, doc, w, encoded) ==>
              DecodeFile(codec, EncodeFile(codec, doc, w).value, r) == Err(Undecryptable)
  {
    hide Sent, Lawful, EncodeFile, DecodeFile;
    FileRoundTrip(codec, fits, doc, w, r, encoded);
  }

  // ---------------------------------------------------------------- names

  /** Setting a field whose name survives leaves the question to the other names. */
  lemma SettingIsNeutral(f: Fields, name: string, value: string)
    requires Sound(f) && Readable(name)
    ensures AllReadable(SetField(f, name, value)) <==> AllReadable(f)
  {
    hide Readable, Trim;
    var g := SetField(f, name, value);
    RemovedHas(f.order, name);
    if AllReadable(f) {
      forall i | 0 <= i < |g.order| ensures Readable(g.order[i]) {
        assert g.order[i] in g.order;
        assert g.order[i] in f.order || g.order[i] == name;
      }
    }
    if AllReadable(g) {
      forall i | 0 <= i < |f.order| ensures Readable(f.order[i]) {
        assert f.order[i] in f.order;
        assert f.order[i] in g.order || f.order[i] == name;
      }
    }
  }

  lemma OwnNames()
    ensures Readable(FIELD_FORMAT) && Readable(FIELD_MODE) && Readable(FIELD_KEYS) && AllReadable(NoFields)
  {
  }

  /** Every name of a file survives exactly when those the caller set do: the lines written here always do. */
  lemma CallersNamesDecide(w: WriteOptions, flags: nat)
    requires Tidy(w)
    ensures NamesSurvive(w, flags)
            <==> AllReadable(w.header.GetOr(NoFields)) && AllReadable(w.footer.GetOr(NoFields))
  {
    hide Sound, SetField, Readable, AllReadable, Get;
    OwnNames();
    NothingIsSound();
    var given := w.header.GetOr(NoFields);
    var cleared := SetField(given, FIELD_KEYS, "");
    var stated := SetField(cleared, FIELD_FORMAT, "1");
    var full := SetField(stated, FIELD_MODE, ModeOf(flags));
    SettingIsNeutral(given, FIELD_KEYS, "");
    SetKeepsSound(given, FIELD_KEYS, "");
    SettingIsNeutral(cleared, FIELD_FORMAT, "1");
    SetKeepsSound(cleared, FIELD_FORMAT, "1");
    SettingIsNeutral(stated, FIELD_MODE, ModeOf(flags));
    SetKeepsSound(stated, FIELD_MODE, ModeOf(flags));
    SettingIsNeutral(full, FIELD_KEYS, Decimal(|w.recipients|) + " recipients");
    var header := HeaderOf(w, flags);
    var first := SetField(NoFields, FIELD_FORMAT, Get(header, FIELD_FORMAT));
    SettingIsNeutral(NoFields, FIELD_FORMAT, Get(header, FIELD_FORMAT));
    SetKeepsSound(NoFields, FIELD_FORMAT, Get(header, FIELD_FORMAT));
    SettingIsNeutral(first, FIELD_MODE, Get(header, FIELD_MODE));
  }

  // ------------------------------------------------------ the whole file

  lemma DecodedBlocks<Doc>(codec: Codec<Doc>, data: Bytes, r: ReadOptions, head: Preheader, footer: Bytes,
                           region: Bytes)
    requires ReadPreheader(data) == Ok(head)
    requires ReadFooterRegion(data, PREHEADER_SIZE + head.headerLen) == Ok((footer, region))
    ensures DecodeFile(codec, data, r).Ok? ==>
              && Parse(data[PREHEADER_SIZE..PREHEADER_SIZE + head.headerLen])
                 == Some(DecodeFile(codec, data, r).value.header)
              && Parse(footer) == Some(DecodeFile(codec, data, r).value.footer)
  {
    hide ReadPreheader, Parse, ReadFooterRegion, Walk, Unwrap, ModeAgrees, RealmAgrees, Get, ModeOf;
  }

  /** A file with a name that does not survive never reads back with the blocks it was written with. */
  lemma LostNamesAreSeen<Doc>(codec: Codec<Doc>, doc: Doc, w: WriteOptions, r: ReadOptions, encoded: Bytes)
    requires Tidy(w) && codec.encode(doc) == Some(encoded) && EncodeFile(codec, doc, w).Ok?
    ensures Wrap(codec, encoded, w).Ok?
    ensures var flags := Wrap(codec, encoded, w).value.1;
            var read := DecodeFile(codec, EncodeFile(codec, doc, w).value, r);
            read.Ok? && read.value.header == HeaderOf(w, flags) && read.value.footer == FooterOf(w, flags) ==>
              NamesSurvive(w, flags)
  {
    hide HeaderOf, FooterOf, Writable, Sound, Assembled, Written, Wrap, EncodeFile, DecodeFile;
    hide Parse, AllReadable, ReadPreheader, ReadFooterRegion, WriteChunk;
    WrittenParts(codec, doc, w, encoded);
    WrapFlags(codec, encoded, w);
    var (sealed, flags) := Wrap(codec, encoded, w).value;
    var header, footer := HeaderOf(w, flags), FooterOf(w, flags);
    var headerBytes, footerBytes := Written(header), Written(footer);
    WrittenReads(header);
    WrittenReads(footer);
    AssembledParts(flags, headerBytes, sealed, footerBytes);
    DecodedBlocks(codec, Assembled(flags, headerBytes, sealed, footerBytes), r,
                  Preheader(VERSION, flags, |headerBytes|), footerBytes, WriteChunk(CHUNK_PAYLOAD, sealed));
  }

  /**
   * A file that could be written, within the payload cap, reads back as its document with both blocks and its mode
   * exactly when the names its writer set survive, the reader is of its school, has what opens it, and pays for it.
   */
  lemma ReadsBackExactly<Doc(!new)>(codec: Codec<Doc>, fits: (int, int) -> bool, doc: Doc, w: WriteOptions,
                                    r: ReadOptions, encoded: Bytes)
    requires Tidy(w) && codec.encode(doc) == Some(encoded) && codec.decode(encoded) == Some(doc) && Lawful(codec, fits)
    requires |encoded| <= MAX_PAYLOAD
    ensures EncodeFile(codec, doc, w).Ok? && Wrap(codec, encoded, w).Ok?
            && |Wrap(codec, encoded, w).value.0| <= MAX_PAYLOAD ==>
              var flags := Wrap(codec, encoded, w).value.1;
              (DecodeFile(codec, EncodeFile(codec, doc, w).value, r)
               == Ok(File(HeaderOf(w, flags), FooterOf(w, flags), doc, ModeOf(flags)))
               <==> && AllReadable(w.header.GetOr(NoFields)) && AllReadable(w.footer.GetOr(NoFields))
                    && (Realm(w) == "" || r.realm == "" || Realm(w) == r.realm)
                    && (w.passphrase != "" ==> r.passphrase == w.passphrase && w.workFactor <= 20)
                    && (w.passphrase == "" && w.recipients != [] ==>
                          exists i, j :: 0 <= i < |r.identities| && 0 <= j < |w.recipients|
                                         && fits(r.identities[i], w.recipients[j])))
  {
    hide HeaderOf, FooterOf, EncodeFile, DecodeFile, Wrap, AllReadable, Lawful, ModeOf, Sound, Get;
    hide Finish, NamesSurvive;
    if EncodeFile(codec, doc, w).Ok? && Wrap(codec, encoded, w).Ok?
       && |Wrap(codec, encoded, w).value.0| <= MAX_PAYLOAD
    {
      LostNamesAreSeen(codec, doc, w, r, encoded);
      CallersNamesDecide(w, Wrap(codec, encoded, w).value.1);
      WrittenFileReads(codec, doc, w, r, encoded);
      if Realm(w) == "" || r.realm == "" || Realm(w) == r.realm {
        FileRoundTrip(codec, fits, doc, w, r, encoded);
      }
    }
  }

  /**
   * Whoever made the bytes: what opens says no school or the reader's, where both say one, and no mode or the one the
   * flags mean, and its blocks are such as setting fields makes.
   */
  lemma NoForeignFileOpens<Doc>(codec: Codec<Doc>, data: Bytes, r: ReadOptions)
    requires DecodeFile(codec, data, r).Ok?
    ensures var file := DecodeFile(codec, data, r).value;
            && ("realm" in file.header.values && r.realm != "" ==> file.header.values["realm"] in {"", r.realm})
            && ("mode" in file.header.values ==> file.header.values["mode"] in {"", file.mode})
            && |data| >= 16
            && file.mode == (if data[10] % 2 == 0 then "plain"
                             else if data[10] / 2 % 2 == 1 then "password" else "identity")
  {
    hide Parse, ReadFooterRegion, Walk, Unwrap, ReadPreheader, Encrypted, Passphrase;
    OpenedFlags(data);
  }

  /** The flags of an accepted preheader, in the bits of their low byte. */
  lemma OpenedFlags(data: Bytes)
    requires ReadPreheader(data).Ok?
    ensures |data| >= 16
    ensures var flags := ReadPreheader(data).value.flags;
            && (Encrypted(flags) <==> data[10] % 2 == 1) && (Passphrase(flags) <==> data[10] / 2 % 2 == 1)
  {
    hide Value32, UnknownCritical, Encrypted, Passphrase;
    var low: int, high: int := data[10], data[11];
    assert ReadPreheader(data).value.flags == low + 256 * high;
    FlagsInBits(low + 256 * high);
    FlagsInBits(low);
    FourBits(high, low);
    hide ReadPreheader;
    TwoBits(low);
  }

  lemma TwoBits(low: nat)
    ensures low % 2 == 1 <==> low % 4 in {1, 3}
    ensures low / 2 % 2 == 1 <==> low % 4 in {2, 3}
  {
    LowBits(low % 4, low / 4);
  }
}
