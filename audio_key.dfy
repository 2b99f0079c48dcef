/**
 * The audio-key request table of src/audio_key.rs.
 *
 * `AudioKeyManager` numbers each key request with a 32-bit sequence tag,
 * remembers the sender half of a one-shot channel under that tag, and sends
 * a 42-byte request packet (command 0x0c). When the reply arrives,
 * `dispatch` reads the tag back from the first four bytes, removes the
 * matching sender and settles it according to the reply command: 0x0d
 * carries the 16-byte key, 0x0e an error. `AudioKeyFuture::poll` turns the
 * receiver's state into the caller's result.
 *
 * A channel is modelled by a handle number and the receiver's view of it
 * (`Outcome`); the packet transport is a ghost log of sent packets.
 */
module AudioKeys {
  import opened Numerals
  import opened SpotifyIdCodec

  // ---------------------------------------------------------------------
  // Wire values
  // ---------------------------------------------------------------------

  const U32_MODULUS: nat := 0x1_0000_0000
  type u32 = x: nat | x < 0x1_0000_0000

  /** The command byte of a key request packet. */
  const CMD_REQUEST_KEY: u8 := 0x0c
  /** The command byte of a reply that carries the key. */
  const CMD_AES_KEY: u8 := 0x0d
  /** The command byte of a reply that reports an error. */
  const CMD_AES_KEY_ERROR: u8 := 0x0e

  type KeyBytes = s: seq<u8> | |s| == 16 witness seq(16, _ => 0)

  /** A 128-bit content decryption key. */
  datatype AudioKey = AudioKey(bytes: KeyBytes)

  /** The single error a key request can end in. */
  datatype AudioKeyError = AudioKeyError

  /** `write_u32::<BigEndian>`: four bytes, most significant first. */
  function U32Bytes(v: u32): (bs: seq<u8>)
    ensures |bs| == 4
  {
    Digits(v, 256, 4)
  }

  /** `write_u16::<BigEndian>`: two bytes, most significant first. */
  function U16Bytes(v: nat): (bs: seq<u8>)
    requires v < 0x1_0000
    ensures |bs| == 2
  {
    Digits(v, 256, 2)
  }

  lemma Pow256Four()
    ensures Pow(256, 4) == U32_MODULUS
  {
    assert Pow(256, 2) == 0x1_0000;
  }

  /** `BigEndian::read_u32` on the first four bytes: the tag they spell, most significant byte first. */
  function ReadU32(bs: seq<u8>): (v: u32)
    requires |bs| >= 4
    ensures U32Bytes(v) == bs[..4]
  {
    HornerBound(bs[..4], 256);
    Pow256Four();
    DigitsHorner(bs[..4], 256);
    Horner(bs[..4], 256)
  }

  /** Reading back four written bytes gives the written value, whatever follows them. */
  lemma ReadU32Bytes(v: u32, rest: seq<u8>)
    ensures ReadU32(U32Bytes(v) + rest) == v
  {
    assert (U32Bytes(v) + rest)[..4] == U32Bytes(v);
    HornerDigits(v, 256, 4);
    Pow256Four();
    DivModUnique(v, U32_MODULUS, 0, v);
  }

  /** Two four-byte prefixes read as the same tag only when they are the same bytes. */
  lemma ReadU32Injective(a: seq<u8>, b: seq<u8>)
    requires |a| >= 4 && |b| >= 4 && ReadU32(a) == ReadU32(b)
    ensures a[..4] == b[..4]
  {
  }

  // ---------------------------------------------------------------------
  // The request packet
  // ---------------------------------------------------------------------

  /**
   * The payload of `send_key_request`: the file id, the track id in raw
   * form, the sequence tag and two zero bytes.
   */
  function KeyRequestPayload(tag: u32, track: SpotifyId, file: FileId): (p: seq<u8>)
    ensures |p| == 42
  {
    file.bytes + ToRaw(track) + U32Bytes(tag) + U16Bytes(0)
  }

  /** The payload decodes back to the file id, the track, the tag and a zero trailer. */
  lemma KeyRequestLayout(tag: u32, track: SpotifyId, file: FileId)
    ensures KeyRequestPayload(tag, track, file)[..20] == file.bytes
    ensures FromRaw(KeyRequestPayload(tag, track, file)[20..36]) == Ok(track)
    ensures ReadU32(KeyRequestPayload(tag, track, file)[36..]) == tag
    ensures KeyRequestPayload(tag, track, file)[40..] == [0, 0]
  {
    var p := KeyRequestPayload(tag, track, file);
    var raw, tail := ToRaw(track), U32Bytes(tag);
    assert p == file.bytes + raw + tail + U16Bytes(0);
    assert p[..20] == file.bytes;
    assert p[20..36] == raw;
    assert p[36..] == tail + U16Bytes(0);
    RawRoundTrip(track);
    ReadU32Bytes(tag, U16Bytes(0));
    DigitsZero(256, 2);
  }

  /** Requests that differ in any field send different payloads. */
  lemma KeyRequestInjective(tag: u32, track: SpotifyId, file: FileId, tag': u32, track': SpotifyId, file': FileId)
    requires KeyRequestPayload(tag, track, file) == KeyRequestPayload(tag', track', file')
    ensures tag == tag' && track == track' && file == file'
  {
    KeyRequestLayout(tag, track, file);
    KeyRequestLayout(tag', track', file');
  }

  // ---------------------------------------------------------------------
  // The sequence counter
  // ---------------------------------------------------------------------

  /**
   * One `SeqGenerator::get`: the counter's next value. The generator is
   * taken to hand out its current value and advance by one, wrapping at 2^32.
   */
  function NextSeq(s: u32): (r: u32)
    ensures s < U32_MODULUS - 1 ==> r == s + 1
    ensures s == U32_MODULUS - 1 ==> r == 0
  {
    (s + 1) % U32_MODULUS
  }

  /** The counter after k further `get` calls: advanced by k, modulo 2^32. */
  function SeqAfter(s: u32, k: nat): (r: u32)
    ensures r == (s + k) % U32_MODULUS
  {
    if k == 0 then s
    else
      NextSeqCounts(s + k - 1);
      NextSeq(SeqAfter(s, k - 1))
  }

  /** A counter holding a count modulo 2^32 holds the next count after one step. */
  lemma NextSeqCounts(count: nat)
    ensures NextSeq(count % U32_MODULUS) == (count + 1) % U32_MODULUS
  {
    ModAddLeft(count, 1, U32_MODULUS);
  }

  /** Fewer than 2^32 requests apart, two requests never carry the same tag. */
  lemma TagsDistinct(i: nat, j: nat)
    requires i < j < i + U32_MODULUS
    ensures SeqAfter(0, i) != SeqAfter(0, j)
  {
    var q, r := i / U32_MODULUS, i % U32_MODULUS;
    var gap := j - i;
    if r + gap < U32_MODULUS {
      DivModUnique(j, U32_MODULUS, q, r + gap);
    } else {
      DivModUnique(j, U32_MODULUS, q + 1, r + gap - U32_MODULUS);
    }
  }

  /** After 2^32 requests the tag comes round again. */
  lemma TagsWrap(i: nat)
    ensures SeqAfter(0, i) == SeqAfter(0, i + U32_MODULUS)
  {
    ModAddMultiple(i, 1, U32_MODULUS);
  }

  // ---------------------------------------------------------------------
  // Channels and the future
  // ---------------------------------------------------------------------

  /** A channel, named by its allocation number. */
  type HandleId = nat

  /** What the receiving half of a channel can observe. */
  datatype Outcome =
    | Unresolved
    | Completed(result: Result<AudioKey, AudioKeyError>)
    | SenderDropped

  /** `futures::Async`. */
  datatype Async<T> = Ready(value: T) | NotReady

  /** `oneshot::Canceled`: the sender was dropped without completing. */
  datatype Canceled = Canceled

  /** `oneshot::Receiver::poll` on a channel in the given state. */
  function ReceiverPoll(o: Outcome): (p: Result<Async<Result<AudioKey, AudioKeyError>>, Canceled>)
    ensures p == Ok(NotReady) <==> o == Unresolved
    ensures p.Err? <==> o == SenderDropped
    ensures o.Completed? ==> p == Ok(Ready(o.result))
  {
    match o
    case Unresolved => Ok(NotReady)
    case Completed(r) => Ok(Ready(r))
    case SenderDropped => Err(Canceled)
  }

  /**
   * `AudioKeyFuture::poll`: flattens the receiver's result into the
   * caller's. The caller waits exactly while the receiver waits, gets a
   * key exactly when the receiver delivered that key, and gets the error
   * both for a delivered error and for a cancelled channel.
   */
  function FuturePoll(p: Result<Async<Result<AudioKey, AudioKeyError>>, Canceled>): (r: Result<Async<AudioKey>, AudioKeyError>)
    ensures r == Ok(NotReady) <==> p == Ok(NotReady)
    ensures r.Ok? && r.value.Ready? <==> p.Ok? && p.value.Ready? && p.value.value.Ok?
    ensures r.Ok? && r.value.Ready? ==> r.value.value == p.value.value.value
    ensures r.Err? <==> p.Err? || (p.Ok? && p.value.Ready? && p.value.value.Err?)
  {
    match p
    case Ok(Ready(Ok(value))) => Ok(Ready(value))
    case Ok(Ready(Err(err))) => Err(err)
    case Ok(NotReady) => Ok(NotReady)
    case Err(Canceled) => Err(AudioKeyError)
  }

  /**
   * What a caller polling the future sees for each channel state: the key
   * only for a completed success, waiting only while unresolved, and the
   * error for a completed failure and for a dropped sender alike.
   */
  lemma PollOutcome(o: Outcome)
    ensures FuturePoll(ReceiverPoll(o)) == Ok(NotReady) <==> o == Unresolved
    ensures FuturePoll(ReceiverPoll(o)).Ok? && FuturePoll(ReceiverPoll(o)).value.Ready?
        <==> o.Completed? && o.result.Ok?
    ensures o.Completed? && o.result.Ok? ==> FuturePoll(ReceiverPoll(o)) == Ok(Ready(o.result.value))
    ensures FuturePoll(ReceiverPoll(o)).Err? <==> o == SenderDropped || (o.Completed? && o.result.Err?)
  {
  }

  // ---------------------------------------------------------------------
  // Dispatch
  // ---------------------------------------------------------------------

  /** Whether `dispatch` returns normally or panics. */
  datatype DispatchStatus = Dispatched | Panicked

  /**
   * How `dispatch` settles a sender it removed from the table, and whether
   * it returns. A key reply copies bytes 4..20 and needs 20 bytes; an error
   * reply reads bytes 4 and 5 for its warning, which the logger evaluates
   * only when warnings are enabled (`warnEnabled`), and then needs 6 bytes.
   * A reply too short for its command panics with the sender out of the
   * table, so the sender is dropped; any other command drops the sender
   * without completing it.
   */
  function Settle(cmd: u8, data: seq<u8>, warnEnabled: bool): (s: (Outcome, DispatchStatus))
    requires |data| >= 4
    ensures s.0 != Unresolved
  {
    if cmd == CMD_AES_KEY then
      if |data| >= 20 then (Completed(Ok(AudioKey(data[4..20]))), Dispatched) else (SenderDropped, Panicked)
    else if cmd == CMD_AES_KEY_ERROR then
      if |data| >= 6 || !warnEnabled then (Completed(Err(AudioKeyError)), Dispatched) else (SenderDropped, Panicked)
    else
      (SenderDropped, Dispatched)
  }

  /**
   * The caller of a request that `dispatch` settled gets the key exactly
   * when the reply is a key reply of at least 20 bytes, and otherwise the
   * error; it is never left waiting.
   */
  lemma SettledPoll(cmd: u8, data: seq<u8>, warnEnabled: bool)
    requires |data| >= 4
    ensures FuturePoll(ReceiverPoll(Settle(cmd, data, warnEnabled).0))
         == if cmd == CMD_AES_KEY && |data| >= 20 then Ok(Ready(AudioKey(data[4..20]))) else Err(AudioKeyError)
    ensures Settle(cmd, data, warnEnabled).1 == Panicked
        <==> (cmd == CMD_AES_KEY && |data| < 20) || (cmd == CMD_AES_KEY_ERROR && |data| < 6 && warnEnabled)
  {
    PollOutcome(Settle(cmd, data, warnEnabled).0);
  }

  // ---------------------------------------------------------------------
  // The table of outstanding requests
  // ---------------------------------------------------------------------

  /**
   * The channels are numbered 0 .. nextHandle - 1; every outstanding
   * sender belongs to an unresolved channel; no channel is outstanding
   * under two tags; and every unresolved channel is outstanding, so no
   * request can be left waiting without a sender.
   */
  ghost predicate TableOk(pending: map<u32, HandleId>, channels: map<HandleId, Outcome>, nextHandle: HandleId)
  {
    && (forall h: HandleId :: h in channels <==> h < nextHandle)
    && (forall t :: t in pending ==> pending[t] in channels && channels[pending[t]] == Unresolved)
    && (forall t, t' :: t in pending && t' in pending && t != t' ==> pending[t] != pending[t'])
    && (forall h :: h in channels && channels[h] == Unresolved ==> h in pending.Values)
  }

  /** A settled channel keeps its outcome. */
  ghost predicate SettledKept(before: map<HandleId, Outcome>, after: map<HandleId, Outcome>)
  {
    forall h :: h in before && before[h] != Unresolved ==> h in after && after[h] == before[h]
  }

  /**
   * The channels after `request` opens channel `rx` and files its sender
   * under `tag`: a sender already filed under that tag is replaced and so
   * dropped.
   */
  function FiledChannels(pending: map<u32, HandleId>, channels: map<HandleId, Outcome>, tag: u32, rx: HandleId): (r: map<HandleId, Outcome>)
    ensures rx in r && r[rx] == Unresolved
    ensures tag in pending && pending[tag] != rx ==> pending[tag] in r && r[pending[tag]] == SenderDropped
    ensures forall h :: h in channels ==> h in r
    ensures forall h :: h in channels && h != rx && !(tag in pending && h == pending[tag]) ==> r[h] == channels[h]
  {
    if tag in pending then channels[pending[tag] := SenderDropped][rx := Unresolved]
    else channels[rx := Unresolved]
  }

  /** Filing a fresh channel keeps the table consistent and every settled outcome. */
  lemma FilingKeepsTable(pending: map<u32, HandleId>, channels: map<HandleId, Outcome>, next: HandleId, tag: u32)
    requires TableOk(pending, channels, next)
    ensures TableOk(pending[tag := next], FiledChannels(pending, channels, tag, next), next + 1)
    ensures SettledKept(channels, FiledChannels(pending, channels, tag, next))
  {
    var pending', channels' := pending[tag := next], FiledChannels(pending, channels, tag, next);
    forall t | t in pending'
      ensures pending'[t] in channels' && channels'[pending'[t]] == Unresolved
    {
      if t != tag && tag in pending {
        assert pending'[t] == pending[t] != pending[tag];
      }
    }
    forall h | h in channels' && channels'[h] == Unresolved
      ensures h in pending'.Values
    {
      if h != next {
        assert h in channels && channels[h] == Unresolved;
        var t :| t in pending && pending[t] == h;
        assert t != tag;
        assert pending'[t] == h;
      } else {
        assert pending'[tag] == h;
      }
    }
  }

  /** Settling the sender filed under `tag` keeps the table consistent and every settled outcome. */
  lemma SettlingKeepsTable(pending: map<u32, HandleId>, channels: map<HandleId, Outcome>, next: HandleId, tag: u32, o: Outcome)
    requires TableOk(pending, channels, next) && tag in pending && o != Unresolved
    ensures TableOk(pending - {tag}, channels[pending[tag] := o], next)
    ensures SettledKept(channels, channels[pending[tag] := o])
  {
    var pending', channels' := pending - {tag}, channels[pending[tag] := o];
    forall t | t in pending'
      ensures pending'[t] in channels' && channels'[pending'[t]] == Unresolved
    {
      assert pending'[t] == pending[t] != pending[tag];
    }
    forall h | h in channels' && channels'[h] == Unresolved
      ensures h in pending'.Values
    {
      var t :| t in pending && pending[t] == h;
      assert t != tag;
      assert pending'[t] == h;
    }
  }

  // ---------------------------------------------------------------------
  // The manager
  // ---------------------------------------------------------------------

  class AudioKeyManager {
    /** The `SeqGenerator<u32>`: the tag the next request gets. */
    var sequence: u32
    /** The senders of outstanding requests, by tag. */
    var pending: map<u32, HandleId>
    /** Every channel created so far, as its receiver sees it. */
    var channels: map<HandleId, Outcome>
    /** The number the next channel gets. */
    var nextHandle: HandleId
    /** How many requests were made. */
    ghost var issued: nat
    /** The packets handed to the session, in order: command and payload. */
    ghost var sent: seq<(u8, seq<u8>)>

    /** The table is consistent and the counter has advanced once per request. */
    ghost predicate Valid()
      reads this
    {
      TableOk(pending, channels, nextHandle) && sequence == issued % U32_MODULUS
    }

    /** The manager as the session creates it: counter at 0, no requests. */
    constructor()
      ensures Valid()
      ensures sequence == 0 && pending == map[] && channels == map[] && nextHandle == 0
      ensures issued == 0 && sent == []
    {
      sequence := 0;
      pending := map[];
      channels := map[];
      nextHandle := 0;
      issued := 0;
      sent := [];
    }

    /**
     * `AudioKeyManager::request`: opens a channel, files its sender under
     * the next tag and sends the request carrying that tag. Returns the
     * receiver's channel.
     */
    method Request(track: SpotifyId, file: FileId) returns (rx: HandleId)
      requires Valid()
      modifies this
      ensures Valid()
      ensures rx == old(nextHandle) && rx !in old(channels) && nextHandle == old(nextHandle) + 1
      ensures issued == old(issued) + 1 && sequence == NextSeq(old(sequence))
      ensures pending == old(pending)[old(sequence) := rx]
      ensures channels == FiledChannels(old(pending), old(channels), old(sequence), rx)
      ensures SettledKept(old(channels), channels)
      ensures sent == old(sent) + [(CMD_REQUEST_KEY, KeyRequestPayload(old(sequence), track, file))]
    {
      rx := nextHandle;
      nextHandle := nextHandle + 1;

      var tag := sequence;
      FilingKeepsTable(pending, channels, rx, tag);
      channels := FiledChannels(pending, channels, tag, rx);
      pending := pending[tag := rx];
      NextSeqCounts(issued);
      sequence := NextSeq(sequence);
      issued := issued + 1;

      SendKeyRequest(tag, track, file);
    }

    /**
     * `send_key_request`: assembles the payload field by field and hands
     * it to the session as a 0x0c packet.
     */
    method SendKeyRequest(tag: u32, track: SpotifyId, file: FileId)
      modifies this
      ensures sent == old(sent) + [(CMD_REQUEST_KEY, KeyRequestPayload(tag, track, file))]
      ensures sequence == old(sequence) && pending == old(pending) && channels == old(channels)
      ensures nextHandle == old(nextHandle) && issued == old(issued)
    {
      var data: seq<u8> := [];
      data := data + file.bytes;
      data := data + ToRaw(track);
      data := data + U32Bytes(tag);
      data := data + U16Bytes(0);
      assert data == KeyRequestPayload(tag, track, file);
      sent := sent + [(CMD_REQUEST_KEY, data)];
    }

    /**
     * `AudioKeyManager::dispatch`: a reply shorter than 4 bytes panics
     * before touching the table; otherwise the sender filed under the
     * reply's tag, if any, leaves the table and is settled by `Settle`.
     * A tag with no outstanding sender changes nothing.
     */
    method Dispatch(cmd: u8, data: seq<u8>, warnEnabled: bool) returns (status: DispatchStatus)
      requires Valid()
      modifies this
      ensures Valid()
      ensures |data| < 4 ==> status == Panicked && pending == old(pending) && channels == old(channels)
      ensures |data| >= 4 ==> pending == old(pending) - {ReadU32(data)}
      ensures |data| >= 4 && ReadU32(data) !in old(pending) ==> status == Dispatched && channels == old(channels)
      ensures |data| >= 4 && ReadU32(data) in old(pending) ==>
        channels == old(channels)[old(pending)[ReadU32(data)] := Settle(cmd, data, warnEnabled).0]
        && status == Settle(cmd, data, warnEnabled).1
      ensures SettledKept(old(channels), channels)
      ensures sequence == old(sequence) && nextHandle == old(nextHandle)
      ensures issued == old(issued) && sent == old(sent)
    {
      if |data| < 4 {
        return Panicked;
      }
      var tag := ReadU32(data);
      if tag !in pending {
        return Dispatched;
      }
      var settled := Settle(cmd, data, warnEnabled);
      SettlingKeepsTable(pending, channels, nextHandle, tag, settled.0);
      var tx := pending[tag];
      pending := pending - {tag};
      channels := channels[tx := settled.0];
      status := settled.1;
    }

    /**
     * `AudioKeyFuture::poll` on the future returned for channel `rx`:
     * waiting while the channel is unresolved, the key once a key reply
     * completed it, and the error once it was completed with the error or
     * its sender was dropped.
     */
    function Poll(rx: HandleId): (r: Result<Async<AudioKey>, AudioKeyError>)
      reads this
      requires rx in channels
      ensures r == Ok(NotReady) <==> channels[rx] == Unresolved
      ensures r.Ok? && r.value.Ready? <==> channels[rx].Completed? && channels[rx].result.Ok?
      ensures r.Ok? && r.value.Ready? ==> r.value.value == channels[rx].result.value
      ensures r.Err? <==> channels[rx] == SenderDropped || (channels[rx].Completed? && channels[rx].result.Err?)
    {
      PollOutcome(channels[rx]);
      FuturePoll(ReceiverPoll(channels[rx]))
    }
  }

  // ---------------------------------------------------------------------
  // End to end
  // ---------------------------------------------------------------------

  /**
   * A fresh manager's first request, answered by a key reply that carries
   * the tag from the request packet, resolves to that key. A second reply
   * with the same tag finds no sender and leaves the channel as it was.
   */
  method KeyReplyResolves(track: SpotifyId, file: FileId, key: KeyBytes, other: KeyBytes)
    returns (result: Result<Async<AudioKey>, AudioKeyError>, settled: Outcome, afterRepeat: Outcome)
    ensures result == Ok(Ready(AudioKey(key)))
    ensures settled == Completed(Ok(AudioKey(key)))
    ensures afterRepeat == settled
  {
    var m := new AudioKeyManager();
    var tag := m.sequence;
    var rx := m.Request(track, file);
    KeyRequestLayout(tag, track, file);
    assert ReadU32(m.sent[0].1[36..]) == tag;

    var reply := U32Bytes(tag) + key;
    ReadU32Bytes(tag, key);
    assert reply[4..20] == key;
    var status := m.Dispatch(CMD_AES_KEY, reply, true);
    result := m.Poll(rx);
    settled := m.channels[rx];

    var again := U32Bytes(tag) + other;
    ReadU32Bytes(tag, other);
    status := m.Dispatch(CMD_AES_KEY, again, true);
    afterRepeat := m.channels[rx];
  }

  /** An error reply, or a reply with an unknown command, ends the request in the error. */
  method ErrorReplyFails(track: SpotifyId, file: FileId, cmd: u8, body: seq<u8>, warnEnabled: bool)
    returns (result: Result<Async<AudioKey>, AudioKeyError>)
    requires cmd != CMD_AES_KEY
    ensures result == Err(AudioKeyError)
  {
    var m := new AudioKeyManager();
    var tag := m.sequence;
    var rx := m.Request(track, file);
    var reply := U32Bytes(tag) + body;
    ReadU32Bytes(tag, body);
    var status := m.Dispatch(cmd, reply, warnEnabled);
    SettledPoll(cmd, reply, warnEnabled);
    result := m.Poll(rx);
  }

  /** A reply whose tag matches no outstanding request leaves the caller waiting. */
  method StrayReplyIgnored(track: SpotifyId, file: FileId, cmd: u8, stray: u32, body: seq<u8>, warnEnabled: bool)
    returns (result: Result<Async<AudioKey>, AudioKeyError>)
    requires stray != 0
    ensures result == Ok(NotReady)
  {
    var m := new AudioKeyManager();
    var rx := m.Request(track, file);
    var reply := U32Bytes(stray) + body;
    ReadU32Bytes(stray, body);
    var status := m.Dispatch(cmd, reply, warnEnabled);
    result := m.Poll(rx);
  }
}
