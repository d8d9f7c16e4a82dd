/**
  * The tamper-evidence chain of logcenter/tamper.go. SHA-256, HMAC and the JSON encoding are parameters;
  * the hexadecimal and decimal printing, the message layout, the stamp and the persisted state are modelled.
  */
module TamperChain {
  import opened Bytes
  import opened Events

  type Digest = d: seq<Byte> | |d| == 32 witness seq(32, _ => 0)

  /** The uninterpreted parts; `json` encodes an event whose empty metadata has been left out. */
  datatype Crypto = Crypto(sha256: Text -> Digest, hmac: (Text, Text) -> Digest, json: Event -> Option<Text>)

  datatype Config = Config(
    chainId: Text,
    secret: Text,
    persistent: bool,
    metadataKey: Text,
    eventTypes: set<Text>,
    classes: set<Text>)

  const NEWLINE: Byte := 10

  predicate OneLine(t: Text) {
    NEWLINE !in t
  }

  // ----- Printing

  function HexDigit(n: int): (d: Byte)
    requires 0 <= n < 16
  {
    (if n < 10 then 48 + n else 87 + n) as Byte
  }

  /** `hex.EncodeToString`. */
  function Hex(bytes: seq<Byte>): (t: Text)
    ensures |t| == 2 * |bytes|
    ensures OneLine(t)
  {
    if bytes == [] then []
    else [HexDigit(bytes[0] as int / 16), HexDigit(bytes[0] as int % 16)] + Hex(bytes[1..])
  }

  lemma {:induction false} HexInjective(a: seq<Byte>, b: seq<Byte>)
    requires Hex(a) == Hex(b)
    ensures a == b
  {
    assert |a| == |b|;
    if a != [] {
      var x, y := Hex(a), Hex(b);
      assert x[0] == HexDigit(a[0] as int / 16) && x[1] == HexDigit(a[0] as int % 16);
      assert y[0] == HexDigit(b[0] as int / 16) && y[1] == HexDigit(b[0] as int % 16);
      assert x[2..] == Hex(a[1..]) && y[2..] == Hex(b[1..]);
      HexInjective(a[1..], b[1..]);
    }
  }

  /** The value of a hexadecimal digit, lower case only. */
  predicate IsHexDigit(b: Byte) {
    48 <= b <= 57 || 97 <= b <= 102
  }

  function HexValue(b: Byte): int {
    if b <= 57 then b as int - 48 else b as int - 87
  }

  /** Read back two digits a byte, high digit first, the print is the bytes. */
  lemma {:induction false} HexReadsBack(bytes: seq<Byte>, i: nat)
    requires i < |bytes|
    ensures var t := Hex(bytes);
            && IsHexDigit(t[2 * i]) && IsHexDigit(t[2 * i + 1])
            && bytes[i] as int == 16 * HexValue(t[2 * i]) + HexValue(t[2 * i + 1])
  {
    var t := Hex(bytes);
    assert t[2..] == Hex(bytes[1..]);
    if i > 0 {
      HexReadsBack(bytes[1..], i - 1);
      assert t[2 * i] == t[2..][2 * (i - 1)] && t[2 * i + 1] == t[2..][2 * (i - 1) + 1];
    }
  }

  /** `%d` of a non-negative number. */
  function Decimal(n: nat): (t: Text)
    ensures t != [] && OneLine(t)
  {
    if n < 10 then [(48 + n) as Byte] else Decimal(n / 10) + [(48 + n % 10) as Byte]
  }

  /** The number a text of digits stands for. */
  function ReadDecimal(t: Text): int {
    if t == [] then 0 else 10 * ReadDecimal(t[..|t| - 1]) + (t[|t| - 1] as int - 48)
  }

  /** Digits only, no leading zero, and read as usual they are the number. */
  lemma {:induction false} DecimalReadsBack(n: nat)
    ensures var t := Decimal(n);
            && ReadDecimal(t) == n
            && (forall i :: 0 <= i < |t| ==> 48 <= t[i] <= 57)
            && (n > 0 ==> t[0] != 48)
  {
    var t := Decimal(n);
    if n >= 10 {
      DecimalReadsBack(n / 10);
      assert t[..|t| - 1] == Decimal(n / 10);
    } else {
      assert t[..0] == [];
    }
  }

  lemma {:induction false} DecimalInjective(a: nat, b: nat)
    requires Decimal(a) == Decimal(b)
    ensures a == b
  {
    var x, y := Decimal(a), Decimal(b);
    assert x[|x| - 1] as int == 48 + a % 10 && y[|y| - 1] as int == 48 + b % 10;
    if a >= 10 && b >= 10 {
      assert x[..|x| - 1] == Decimal(a / 10) && y[..|y| - 1] == Decimal(b / 10);
      DecimalInjective(a / 10, b / 10);
    }
  }

  // ----- The message

  function Message(chainId: Text, sequence: nat, previousHash: Text, canonicalHash: Text): Text {
    chainId + [NEWLINE] + Decimal(sequence) + [NEWLINE] + previousHash + [NEWLINE] + canonicalHash
  }

  lemma {:induction false} LastLine(a: Text, b: Text, c: Text, d: Text)
    requires a + [NEWLINE] + b == c + [NEWLINE] + d && OneLine(b) && OneLine(d)
    ensures a == c && b == d
  {
    var s, t := a + [NEWLINE] + b, c + [NEWLINE] + d;
    assert s[|a|] == NEWLINE && t[|c|] == NEWLINE;
    assert forall i :: |a| < i < |s| ==> s[i] == b[i - |a| - 1];
    assert forall i :: |c| < i < |t| ==> t[i] == d[i - |c| - 1];
    assert a == s[..|a|] && c == t[..|c|];
    assert b == s[|a| + 1..] && d == t[|c| + 1..];
  }

  /** The layout is unambiguous even for a chain ID that contains line breaks: it can be read from its end. */
  lemma {:induction false} MessageInjective(
    id1: Text, n1: nat, prev1: Text, canon1: Text, id2: Text, n2: nat, prev2: Text, canon2: Text)
    requires OneLine(prev1) && OneLine(canon1) && OneLine(prev2) && OneLine(canon2)
    requires Message(id1, n1, prev1, canon1) == Message(id2, n2, prev2, canon2)
    ensures id1 == id2 && n1 == n2 && prev1 == prev2 && canon1 == canon2
  {
    LastLine(id1 + [NEWLINE] + Decimal(n1) + [NEWLINE] + prev1, canon1,
             id2 + [NEWLINE] + Decimal(n2) + [NEWLINE] + prev2, canon2);
    LastLine(id1 + [NEWLINE] + Decimal(n1), prev1, id2 + [NEWLINE] + Decimal(n2), prev2);
    LastLine(id1, Decimal(n1), id2, Decimal(n2));
    DecimalInjective(n1, n2);
  }

  function MessageDigest(crypto: Crypto, secret: Text, message: Text): Digest {
    if secret != [] then crypto.hmac(secret, message) else crypto.sha256(message)
  }

  /** Two texts with one digest: of the keyed hash under a secret, of the plain one without. */
  ghost predicate Collide(crypto: Crypto, secret: Text, x: Text, y: Text) {
    && x != y
    && (secret != [] ==> crypto.hmac(secret, x) == crypto.hmac(secret, y))
    && (secret == [] ==> crypto.sha256(x) == crypto.sha256(y))
  }

  /** `hashEvidence`. */
  function HashEvidence(crypto: Crypto, config: Config, sequence: nat, previousHash: Text, canonicalHash: Text)
    : (t: Text)
    ensures |t| == 64 && OneLine(t)
  {
    Hex(MessageDigest(crypto, config.secret, Message(config.chainId, sequence, previousHash, canonicalHash)))
  }

  /**
    * Evidence binds everything it covers: two equal hashes under one secret stand for the same chain, sequence
    * number, predecessor and canonical hash, or their messages are two texts with one digest.
    */
  lemma {:induction false} EvidenceBinds(
    crypto: Crypto, a: Config, n1: nat, prev1: Text, canon1: Text, b: Config, n2: nat, prev2: Text, canon2: Text)
    requires OneLine(prev1) && OneLine(canon1) && OneLine(prev2) && OneLine(canon2) && a.secret == b.secret
    requires HashEvidence(crypto, a, n1, prev1, canon1) == HashEvidence(crypto, b, n2, prev2, canon2)
    ensures || (a.chainId == b.chainId && n1 == n2 && prev1 == prev2 && canon1 == canon2)
            || Collide(crypto, a.secret,
                       a.chainId + [NEWLINE] + Decimal(n1) + [NEWLINE] + prev1 + [NEWLINE] + canon1,
                       b.chainId + [NEWLINE] + Decimal(n2) + [NEWLINE] + prev2 + [NEWLINE] + canon2)
  {
    var x, y := Message(a.chainId, n1, prev1, canon1), Message(b.chainId, n2, prev2, canon2);
    HexInjective(MessageDigest(crypto, a.secret, x), MessageDigest(crypto, b.secret, y));
    if x == y {
      MessageInjective(a.chainId, n1, prev1, canon1, b.chainId, n2, prev2, canon2);
    }
  }

  // ----- The canonical hash

  function WithoutKey(fields: Fields, key: Text): Fields {
    match fields
    case NilFields => NilFields
    case Fields(entries) => Fields(entries - {key})
  }

  /** JSON leaves empty metadata out, so nil and empty encode alike. */
  function Encode(crypto: Crypto, e: Event): Option<Text> {
    crypto.json(if e.metadata == Fields(map[]) then e.(metadata := NilFields) else e)
  }

  /** `hashEventForEvidence`. */
  function CanonicalHash(crypto: Crypto, e: Event, key: Text): (h: Option<Text>)
    ensures h.Some? ==> |h.value| == 64 && OneLine(h.value)
  {
    match Encode(crypto, e.(metadata := WithoutKey(e.metadata, key)))
    case None => None
    case Some(encoded) => Some(Hex(crypto.sha256(encoded)))
  }

  /** Two events with one canonical hash have one encoding, their stamps apart, or SHA-256 collides on the two. */
  lemma {:induction false} CanonicalBinds(crypto: Crypto, e: Event, f: Event, key: Text)
    requires CanonicalHash(crypto, e, key).Some? && CanonicalHash(crypto, e, key) == CanonicalHash(crypto, f, key)
    ensures var x := crypto.json(e.(metadata := Covered(e.metadata, key)));
            var y := crypto.json(f.(metadata := Covered(f.metadata, key)));
            && x.Some? && y.Some?
            && (x == y || (x.value != y.value && crypto.sha256(x.value) == crypto.sha256(y.value)))
  {
    CanonicalCovers(crypto, e, key);
    CanonicalCovers(crypto, f, key);
    var x := crypto.json(e.(metadata := Covered(e.metadata, key)));
    var y := crypto.json(f.(metadata := Covered(f.metadata, key)));
    HexInjective(crypto.sha256(x.value), crypto.sha256(y.value));
  }

  /** The metadata a canonical hash covers: every entry but the stamp's, and none at all if there is no other. */
  function Covered(metadata: Fields, key: Text): Fields {
    if metadata.Fields? && exists k :: k in metadata.entries && k != key
    then Fields(map k | k in metadata.entries && k != key :: metadata.entries[k])
    else NilFields
  }

  /** The canonical hash is the plain SHA-256 of the encoded event with all of its metadata but the stamp. */
  lemma {:induction false} CanonicalCovers(crypto: Crypto, e: Event, key: Text)
    ensures var encoded := crypto.json(e.(metadata := Covered(e.metadata, key)));
            CanonicalHash(crypto, e, key) == if encoded.None? then None else Some(Hex(crypto.sha256(encoded.value)))
  {
    if e.metadata.Fields? {
      var rest := e.metadata.entries - {key};
      assert rest == map k | k in e.metadata.entries && k != key :: e.metadata.entries[k];
      if k :| k in e.metadata.entries && k != key {
        assert k in rest;
      }
    }
  }

  // ----- Stamping

  /** What a stamp records. */
  datatype Mark = Mark(sequence: nat, previousHash: Text, canonicalHash: Text, hash: Text)

  const SEQUENCE := Ascii("sequence")
  const PREVIOUS_HASH := Ascii("previous_hash")
  const CANONICAL_HASH := Ascii("canonical_hash")
  const HASH := Ascii("hash")

  function StampValue(config: Config, mark: Mark): Value {
    Object(Fields(map[
      Ascii("version") := Str(Ascii("v1")),
      Ascii("algorithm") := Str(if config.secret != [] then Ascii("hmac-sha256") else Ascii("sha256")),
      Ascii("chain_id") := Str(config.chainId),
      SEQUENCE := Number(mark.sequence),
      PREVIOUS_HASH := Str(mark.previousHash),
      CANONICAL_HASH := Str(mark.canonicalHash),
      HASH := Str(mark.hash)]))
  }

  function Stamped(config: Config, e: Event, mark: Mark): Event {
    var entries := if e.metadata.Fields? then e.metadata.entries else map[];
    e.(metadata := Fields(entries[config.metadataKey := StampValue(config, mark)]))
  }

  predicate Matches(config: Config, e: Event) {
    && (config.eventTypes != {} ==> e.eventType in config.eventTypes)
    && (config.classes != {} ==> e.classification in config.classes)
  }

  /** In memory: the head of the chain. On disk: what a restart would load. */
  datatype Memory = Memory(previousHash: Text, sequence: nat)

  datatype Saved = Saved(chainId: Text, previousHash: Text, sequence: nat)

  datatype State = State(memory: Memory, disk: Option<Saved>)

  const GENESIS := Memory([], 0)

  const UINT64: nat := 0x1_0000_0000_0000_0000

  /** `loadState`; None is a state file of another chain. */
  function Load(config: Config, disk: Option<Saved>): Option<Memory> {
    if !config.persistent || disk.None? then Some(GENESIS)
    else if disk.value.chainId != [] && disk.value.chainId != config.chainId then None
    else Some(Memory(disk.value.previousHash, disk.value.sequence))
  }

  function Save(config: Config, s: State, works: bool): State {
    if config.persistent && works
    then s.(disk := Some(Saved(config.chainId, s.memory.previousHash, s.memory.sequence)))
    else s
  }

  datatype TamperError = EncodingFailed | SaveFailed

  /** The result of `Apply`: the event, stamped or not, the mark it got, and the error. */
  datatype Applied = Applied(event: Event, mark: Option<Mark>, error: Option<TamperError>)

  function NextMark(crypto: Crypto, config: Config, m: Memory, canonicalHash: Text): Mark {
    var sequence := (m.sequence + 1) % UINT64;
    Mark(sequence, m.previousHash, canonicalHash, HashEvidence(crypto, config, sequence, m.previousHash, canonicalHash))
  }

  function Apply(crypto: Crypto, config: Config, s: State, e: Event, saveWorks: bool): (State, Applied) {
    if !Matches(config, e) then (s, Applied(e, None, None))
    else
      match CanonicalHash(crypto, e, config.metadataKey)
      case None => (s, Applied(e, None, Some(EncodingFailed)))
      case Some(canonicalHash) =>
        var mark := NextMark(crypto, config, s.memory, canonicalHash);
        (Save(config, s.(memory := Memory(mark.hash, mark.sequence)), saveWorks),
         Applied(Stamped(config, e, mark), Some(mark),
                 if config.persistent && !saveWorks then Some(SaveFailed) else None))
  }

  /** The chain object. */
  class TamperEvidence {
    const config: Config
    const crypto: Crypto
    var previousHash: Text
    var sequence: nat
    var file: Option<Saved>

    ghost function Current(): State
      reads this
    {
      State(Memory(previousHash, sequence), file)
    }

    constructor (crypto: Crypto, config: Config, memory: Memory, file: Option<Saved>)
      ensures this.config == config && this.crypto == crypto && Current() == State(memory, file)
    {
      this.config := config;
      this.crypto := crypto;
      previousHash, sequence := memory.previousHash, memory.sequence;
      this.file := file;
    }

    method SaveState(works: bool) returns (failed: bool)
      modifies this`file
      ensures Current() == Save(config, old(Current()), works)
      ensures failed == (config.persistent && !works)
    {
      if !config.persistent {
        return false;
      }
      if !works {
        return true;
      }
      file := Some(Saved(config.chainId, previousHash, sequence));
      return false;
    }

    method Stamp(e: Event, saveWorks: bool) returns (r: Applied)
      modifies this
      ensures (Current(), r) == Apply(crypto, config, old(Current()), e, saveWorks)
    {
      if !Matches(config, e) {
        return Applied(e, None, None);
      }
      var canonicalHash := CanonicalHash(crypto, e, config.metadataKey);
      if canonicalHash.None? {
        return Applied(e, None, Some(EncodingFailed));
      }
      var next := (sequence + 1) % UINT64;
      var previous := previousHash;
      var hash := HashEvidence(crypto, config, next, previous, canonicalHash.value);
      var mark := Mark(next, previous, canonicalHash.value, hash);
      sequence := next;
      previousHash := hash;
      var failed := SaveState(saveWorks);
      return Applied(Stamped(config, e, mark), Some(mark), if failed then Some(SaveFailed) else None);
    }
  }

  /** What is found at the path of the state file. */
  datatype StateFile = Absent | Unreadable | Undecodable | Holding(saved: Saved)

  datatype OpenError = CannotRead | CannotDecode | OtherChain

  /**
    * `newTamperEvidence`: from genesis without a path or a file, else from what the file holds -- unless it
    * cannot be read or decoded, or names another chain.
    */
  method OpenChain(crypto: Crypto, config: Config, file: StateFile) returns (r: Result<TamperEvidence, OpenError>)
    ensures r.Ok? ==> fresh(r.value) && r.value.config == config && r.value.crypto == crypto
    ensures r.Ok? <==> !config.persistent || file.Absent?
                       || (file.Holding? && (file.saved.chainId == [] || file.saved.chainId == config.chainId))
    ensures r.Ok? ==> Load(config, r.value.Current().disk) == Some(r.value.Current().memory)
    ensures r.Ok? && file.Holding? ==> r.value.Current().disk == Some(file.saved)
    ensures r.Err? ==> match r.error
                       case CannotRead => file.Unreadable?
                       case CannotDecode => file.Undecodable?
                       case OtherChain => file.Holding?
  {
    var saved := if file.Holding? then Some(file.saved) else None;
    var memory := GENESIS;
    if config.persistent {
      match file {
        case Absent =>
        case Unreadable => return Err(CannotRead);
        case Undecodable => return Err(CannotDecode);
        case Holding(state) =>
          if state.chainId != [] && state.chainId != config.chainId {
            return Err(OtherChain);
          }
          memory := Memory(state.previousHash, state.sequence);
      }
    }
    var evidence := new TamperEvidence(crypto, config, memory, saved);
    return Ok(evidence);
  }

  /** What a working save wrote, a load reads back; a save that fails leaves the load what it was. */
  lemma {:induction false} SavedStateLoads(config: Config, s: State, works: bool)
    ensures Load(config, Save(config, s, works).disk)
         == if config.persistent && works then Some(s.memory) else Load(config, s.disk)
  {}

  // ----- A stamp can be checked

  /** The mark a reader finds in a stamped event. */
  function ReadMark(e: Event, key: Text): Option<Mark> {
    if e.metadata.Fields? && key in e.metadata.entries && e.metadata.entries[key].Object?
       && e.metadata.entries[key].fields.Fields? then
      var stamp := e.metadata.entries[key].fields.entries;
      if SEQUENCE in stamp && PREVIOUS_HASH in stamp && CANONICAL_HASH in stamp && HASH in stamp
         && stamp[SEQUENCE].Number? && stamp[SEQUENCE].number >= 0 && stamp[PREVIOUS_HASH].Str?
         && stamp[CANONICAL_HASH].Str? && stamp[HASH].Str?
      then Some(Mark(stamp[SEQUENCE].number, stamp[PREVIOUS_HASH].text, stamp[CANONICAL_HASH].text, stamp[HASH].text))
      else None
    else None
  }

  lemma {:induction false} StampReadsBack(config: Config, e: Event, mark: Mark)
    ensures ReadMark(Stamped(config, e, mark), config.metadataKey) == Some(mark)
  {
    assert |SEQUENCE| == 8 && |PREVIOUS_HASH| == 13 && |CANONICAL_HASH| == 14 && |HASH| == 4;
  }

  /** The stamp also names its chain and how it was made. */
  lemma {:induction false} StampNamesChain(config: Config, e: Event, mark: Mark)
    ensures var stamp := StampValue(config, mark).fields.entries;
            && Ascii("chain_id") in stamp && stamp[Ascii("chain_id")] == Str(config.chainId)
            && Ascii("version") in stamp && stamp[Ascii("version")] == Str(Ascii("v1"))
            && Ascii("algorithm") in stamp
            && (config.secret == [] ==> stamp[Ascii("algorithm")] == Str(Ascii("sha256")))
            && (config.secret != [] ==> stamp[Ascii("algorithm")] == Str(Ascii("hmac-sha256")))
            && |stamp| == 7
            && Stamped(config, e, mark).metadata.entries[config.metadataKey] == Object(Fields(stamp))
  {
    assert Ascii("chain_id")[0] == 99 && SEQUENCE[0] == 115;
    assert |Ascii("hmac-sha256")| == 11 && |Ascii("sha256")| == 6;
    var stamp := StampValue(config, mark).fields.entries;
    assert stamp.Keys == {Ascii("version"), Ascii("algorithm"), Ascii("chain_id"), SEQUENCE, PREVIOUS_HASH,
                          CANONICAL_HASH, HASH};
  }

  /** The canonical hash does not see the stamp: not a new one, not an old one, not the map made to hold it. */
  lemma {:induction false} CanonicalIgnoresStamp(crypto: Crypto, config: Config, e: Event, mark: Mark)
    ensures CanonicalHash(crypto, Stamped(config, e, mark), config.metadataKey)
       == CanonicalHash(crypto, e, config.metadataKey)
  {
    var key := config.metadataKey;
    var stamped := Stamped(config, e, mark);
    var bare := e.(metadata := WithoutKey(e.metadata, key));
    var again := stamped.(metadata := WithoutKey(stamped.metadata, key));
    if e.metadata.NilFields? {
      assert stamped.metadata.entries - {key} == map[];
      assert again.(metadata := NilFields) == bare;
    } else {
      assert stamped.metadata.entries - {key} == e.metadata.entries - {key};
      assert again == bare;
    }
  }

  /**
    * Which events are stamped and how applying can end. An event is stamped if and only if its type and its
    * classification are among those configured, where any are, and it can be encoded; otherwise it passes
    * through as it is and nothing is remembered or saved. The error tells a failed encoding from a failed save,
    * and a failed save keeps the stamp.
    */
  lemma {:induction false} ApplyOutcomes(crypto: Crypto, config: Config, s: State, e: Event, saveWorks: bool)
    ensures var (s1, r) := Apply(crypto, config, s, e, saveWorks);
            var wanted := (config.eventTypes == {} || e.eventType in config.eventTypes)
                          && (config.classes == {} || e.classification in config.classes);
            var encodes := crypto.json(e.(metadata := Covered(e.metadata, config.metadataKey))).Some?;
            && (r.mark.Some? <==> wanted && encodes)
            && (r.error == Some(EncodingFailed) <==> wanted && !encodes)
            && (r.error == Some(SaveFailed) <==> wanted && encodes && config.persistent && !saveWorks)
            && (r.mark.None? ==> s1 == s && r.event == e)
            && (r.mark.Some? ==> s1.memory == Memory(r.mark.value.hash, r.mark.value.sequence)
                                 && r.mark.value.sequence == (s.memory.sequence + 1) % 0x1_0000_0000_0000_0000)
            && (r.mark.Some? && config.persistent && saveWorks ==>
                  s1.disk == Some(Saved(config.chainId, s1.memory.previousHash, s1.memory.sequence)))
            && (!config.persistent || !saveWorks ==> s1.disk == s.disk)
  {
    CanonicalCovers(crypto, e, config.metadataKey);
  }

  /**
    * A stamped event checks out by itself: its canonical hash, recomputed from the event as it now is, is the
    * one recorded, and the recorded hash is the hash of the recorded sequence, predecessor and canonical hash.
    */
  lemma {:induction false} StampSelfConsistent(crypto: Crypto, config: Config, s: State, e: Event, saveWorks: bool)
    requires Matches(config, e) && CanonicalHash(crypto, e, config.metadataKey).Some?
    ensures var r := Apply(crypto, config, s, e, saveWorks).1;
            exists mark ::
              && ReadMark(r.event, config.metadataKey) == Some(mark) == r.mark
              && CanonicalHash(crypto, r.event, config.metadataKey) == Some(mark.canonicalHash)
              && mark.hash == Hex(
                   var message := config.chainId + [NEWLINE] + Decimal(mark.sequence) + [NEWLINE]
                                  + mark.previousHash + [NEWLINE] + mark.canonicalHash;
                   if config.secret != [] then crypto.hmac(config.secret, message) else crypto.sha256(message))
              && mark.previousHash == s.memory.previousHash
  {
    var canonicalHash := CanonicalHash(crypto, e, config.metadataKey).value;
    var mark := NextMark(crypto, config, s.memory, canonicalHash);
    StampReadsBack(config, e, mark);
    CanonicalIgnoresStamp(crypto, config, e, mark);
  }
}
