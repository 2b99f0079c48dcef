# librespot identifier codec and audio-key table, in Dafny

This project models two small sequential components of librespot, the
open-source Spotify client library, and proves properties of them.

- **`SpotifyId` and `FileId`** (`core/src/spotify_id.rs`). A `SpotifyId`
  wraps an unsigned 128-bit integer. It converts to and from base-16 text,
  base-62 text (alphabet `0-9a-zA-Z`) and a 16-byte big-endian raw form. A
  `FileId` is 20 raw bytes. It renders as 40 lowercase hex digits and is
  ordered byte by byte. Module `SpotifyIdCodec` (`spotify_id.dfy`).
- **`AudioKeyManager`** (`src/audio_key.rs`). It numbers each audio-key
  request with a 32-bit sequence tag and files the request's one-shot
  sender under that tag. Then it sends a 42-byte `0x0c` request packet. The
  reply's first four bytes carry the tag back. `dispatch` removes the
  matching sender and settles it: command `0x0d` carries the key, `0x0e`
  reports an error, and any other command drops the sender.
  `AudioKeyFuture::poll` turns the receiver's state into the caller's
  result. Module `AudioKeys` (`audio_key.dfy`).
- **Shared arithmetic.** `Numerals` (`numerals.dfy`) holds fixed-width
  positional numerals: `Horner` reads a digit sequence and `Digits` writes
  one. The `SpotifyId` codecs and the packet fields of the key request are
  built on them, and the lemmas there show that the two are inverse at a
  fixed width.

Values are modelled as follows:
- `u128` is a `nat` below 2^128. `u32` is a `nat` below 2^32.
- Text is `seq<char>`.
- The unchecked `u128` accumulators of the parsers wrap modulo 2^128, as a
  release build does.

The loops of the source are methods, each proved against a specification
function:
- the parser loop: `ParseWith` against `ParseNumeral`;
- the buffer-filling loops: `WriteDigits` and `ToBase16`;
- the state changes of the manager, as methods of the class
  `AudioKeyManager`.

The manager's state is split as follows:
- The pending `HashMap` is a `map<u32, HandleId>` from tag to channel
  handle.
- Each channel's receiver-side state is a map from handle to `Outcome`.
- The packets handed to the session are a ghost log `sent`.

## Model

| member | source | states |
|---|---|---|
| SpotifyIdCodec.Base62Table | core/src/spotify_id.rs:10 | the base-62 alphabet has 62 characters: digit d is `'0'+d` below 10, `'a'+d-10` below 36, `'A'+d-36` above |
| SpotifyIdCodec.Base16Table | core/src/spotify_id.rs:11 | the base-16 alphabet has 16 characters: `0-9` then lowercase `a-f` |
| SpotifyIdCodec.Base62Distinct | core/src/spotify_id.rs:10 | no character of the base-62 alphabet repeats, so each has one digit value |
| SpotifyIdCodec.Base16Distinct | core/src/spotify_id.rs:11 | no character of the base-16 alphabet repeats |
| SpotifyIdCodec.Position | core/src/spotify_id.rs:46 | `position` is None exactly when the character is not in the alphabet, and otherwise an index holding that character |
| SpotifyIdCodec.PositionFirst | core/src/spotify_id.rs:46 | `position` returns the first occurrence: no earlier entry holds the character |
| SpotifyIdCodec.PositionOfDigit | core/src/spotify_id.rs:46 | in an alphabet without repeats, the character of digit d is found at d |
| SpotifyIdCodec.AccumulateU128 | core/src/spotify_id.rs:50-51 | multiplying and adding with wrap-around at each step gives the exact next value modulo 2^128 |
| SpotifyIdCodec.ParseWith | core/src/spotify_id.rs:44-54 | the shared parser loop returns the error at the first character outside the alphabet, otherwise the numeral's value modulo 2^128 |
| SpotifyIdCodec.FromBase16 | core/src/spotify_id.rs:41-55 | `from_base16` is the base-16 numeral of the text modulo 2^128, or the error |
| SpotifyIdCodec.FromBase62 | core/src/spotify_id.rs:57-71 | `from_base62` is the base-62 numeral of the text modulo 2^128, or the error |
| SpotifyIdCodec.ParseRejectsIff | core/src/spotify_id.rs:46-47 | a parser fails exactly when some character is outside its alphabet |
| SpotifyIdCodec.ParseEmpty | core/src/spotify_id.rs:44 | the empty text parses to identifier 0 |
| SpotifyIdCodec.Base16Overflow | core/src/spotify_id.rs:50-51 | a 33rd leading base-16 digit is silently lost to wrap-around instead of being rejected |
| SpotifyIdCodec.PrependOverflow | core/src/spotify_id.rs:50-51 | a digit in front of a numeral whose weight is 2^128 does not change the parsed value |
| SpotifyIdCodec.WriteDigits | core/src/spotify_id.rs:97-102 | filling a buffer from the end with `table[n % base]` and dividing n writes the numeral's `width` least significant digits, most significant first |
| SpotifyIdCodec.ToBase62 | core/src/spotify_id.rs:94-105 | `to_base62` is the 22-digit base-62 numeral of the value |
| SpotifyIdCodec.Base62Text | core/src/spotify_id.rs:94-105 | base-62 text is always 22 characters |
| SpotifyIdCodec.Widths | core/src/spotify_id.rs:86-112 | 32 hex digits and 16 bytes hold exactly the 128-bit values; 22 base-62 digits hold all of them |
| SpotifyIdCodec.Base62RoundTrip | core/src/spotify_id.rs:57-105 | `from_base62(to_base62(id)) == Ok(id)` for every identifier |
| SpotifyIdCodec.Base62Canonical | core/src/spotify_id.rs:57-105 | a 22-digit base-62 text is exactly `to_base62` of the id it parses to when its value is below 2^128; wider texts wrap and are not canonical |
| SpotifyIdCodec.Base62TextAt | core/src/spotify_id.rs:99-101 | character k of the base-62 text is the digit of weight 62^(21-k) |
| SpotifyIdCodec.UnmaskedIndex | core/src/spotify_id.rs:88 | the unmasked table index is the value shifted right by 4i bits, truncated to 64 bits |
| SpotifyIdCodec.UnmaskedInBounds | core/src/spotify_id.rs:88 | every index of the as-written loop is within the 16-entry table exactly when the value is below 16 |
| SpotifyIdCodec.UnmaskedIndexSmall | core/src/spotify_id.rs:88 | for a value below 16, the first index is the value and all others are 0 |
| SpotifyIdCodec.ToBase16 | core/src/spotify_id.rs:83-92 | as written, `to_base16` panics exactly for values of 16 or more; below 16 it yields 31 `'0'`s and the value's digit |
| SpotifyIdCodec.UnmaskedText | core/src/spotify_id.rs:86-89 | a buffer the as-written loop filled without panicking is 31 zeros and one digit |
| SpotifyIdCodec.Base16Text | core/src/spotify_id.rs:83-92 | the intended base-16 text is always 32 characters |
| SpotifyIdCodec.ToBase16Masked | core/src/spotify_id.rs:83-92 | `to_base16` with a nibble mask is the 32-digit base-16 numeral of the value |
| SpotifyIdCodec.Base16RoundTrip | core/src/spotify_id.rs:41-92 | `from_base16` inverts the masked `to_base16` for every identifier |
| SpotifyIdCodec.Base16Canonical | core/src/spotify_id.rs:41-92 | every 32-digit base-16 text parses, and the masked `to_base16` of the result gives the text back, so each id has exactly one such text |
| SpotifyIdCodec.ToBase16AgreesBelow16 | core/src/spotify_id.rs:83-92 | below 16 the as-written text equals the intended one, and `from_base16` inverts it |
| SpotifyIdCodec.ToRaw | core/src/spotify_id.rs:107-115 | `to_raw` yields 16 bytes |
| SpotifyIdCodec.ToRawAt | core/src/spotify_id.rs:112 | byte k of `to_raw` is the value's byte of weight 256^(15-k), so the bytes are big-endian |
| SpotifyIdCodec.FromRaw | core/src/spotify_id.rs:73-81 | `from_raw` succeeds exactly on 16-byte slices, and then `to_raw` of the result gives the slice back |
| SpotifyIdCodec.RawRoundTrip | core/src/spotify_id.rs:73-115 | `from_raw(to_raw(id)) == Ok(id)` for every identifier |
| SpotifyIdCodec.HexByte | core/src/spotify_id.rs:125 | `format!("{:02x}", b)` is two characters |
| SpotifyIdCodec.HexByteValue | core/src/spotify_id.rs:125 | the two characters are the byte's hex digits, high nibble first: read as base 16 they give the byte back |
| SpotifyIdCodec.Hex | core/src/spotify_id.rs:123-127 | the hex text has two characters per byte, and characters 2k and 2k+1 are the high and low hex digits of byte k |
| SpotifyIdCodec.FileIdToBase16 | core/src/spotify_id.rs:122-128 | `FileId::to_base16` is 40 lowercase hex digits |
| SpotifyIdCodec.HexDigits | core/src/spotify_id.rs:125 | hex text consists of base-16 digits only |
| SpotifyIdCodec.FileIdHexInjective | core/src/spotify_id.rs:122-128 | distinct file ids render to distinct hex texts |
| SpotifyIdCodec.CompareBytes | core/src/spotify_id.rs:118 | slice comparison is Equal exactly for equal slices, and a proper prefix compares Less |
| SpotifyIdCodec.Compare | core/src/spotify_id.rs:118-119 | the derived `Ord::cmp` of `FileId` is Equal exactly for equal file ids |
| SpotifyIdCodec.CompareBytesMeaning | core/src/spotify_id.rs:118 | slice comparison on equal lengths is Equal exactly for equal slices, Less exactly at a first smaller byte, and antisymmetric |
| SpotifyIdCodec.CompareLexicographic | core/src/spotify_id.rs:118-119 | the derived `FileId` order is byte-wise equality and lexicographic order over the 20 bytes |
| SpotifyIdCodec.CompareBytesTransitive | core/src/spotify_id.rs:118 | the `FileId` order is transitive |
| AudioKeys.U32Bytes | src/audio_key.rs:62 | the tag is written as 4 bytes |
| AudioKeys.U16Bytes | src/audio_key.rs:63 | the trailer is written as 2 bytes |
| AudioKeys.ReadU32 | src/audio_key.rs:25 | `BigEndian::read_u32` of the first four bytes is the tag whose big-endian bytes they are |
| AudioKeys.ReadU32Bytes | src/audio_key.rs:25 | reading a big-endian u32 from written tag bytes gives the tag, whatever follows |
| AudioKeys.ReadU32Injective | src/audio_key.rs:25 | two replies read as the same tag only if their first four bytes are equal |
| AudioKeys.KeyRequestPayload | src/audio_key.rs:58-64 | the request payload is always 42 bytes |
| AudioKeys.KeyRequestLayout | src/audio_key.rs:59-63 | the payload is the file id, then `to_raw` of the track, then the big-endian tag, then two zero bytes |
| AudioKeys.KeyRequestInjective | src/audio_key.rs:58-64 | different (tag, track, file) requests send different payloads |
| AudioKeys.NextSeqCounts | src/audio_key.rs:49 | a counter that holds a count modulo 2^32 holds the next count after one `get` |
| AudioKeys.NextSeq | src/audio_key.rs:49 | one `get` moves the counter up by one, and from 2^32 - 1 back to 0 |
| AudioKeys.SeqAfter | src/audio_key.rs:49 | k `get` calls advance the counter by k modulo 2^32 |
| AudioKeys.TagsDistinct | src/audio_key.rs:49 | requests fewer than 2^32 apart carry different tags |
| AudioKeys.TagsWrap | src/audio_key.rs:49 | after 2^32 requests the tag repeats |
| AudioKeys.ReceiverPoll | src/audio_key.rs:75 | the receiver is NotReady exactly while unresolved, Canceled exactly when its sender was dropped, and otherwise Ready with the completed result |
| AudioKeys.FuturePoll | src/audio_key.rs:74-81 | `poll` waits exactly while the receiver waits, yields a key exactly when the receiver delivered `Ok` of that key, and yields the error for a delivered error or `Canceled` |
| AudioKeys.PollOutcome | src/audio_key.rs:74-81 | the caller sees NotReady only while unresolved, the key only for a completed success, and the error for a completed error or a dropped sender |
| AudioKeys.Settle | src/audio_key.rs:29-41 | a sender removed by `dispatch` is never left unresolved |
| AudioKeys.SettledPoll | src/audio_key.rs:29-41 | a settled request yields `data[4..20]` exactly for a `0x0d` reply of at least 20 bytes and otherwise the error; `dispatch` panics exactly for a short `0x0d` reply, or a short `0x0e` reply while warnings are logged |
| AudioKeys.FiledChannels | src/audio_key.rs:46-50 | after `insert` the new channel is unresolved, a sender it replaced under the same tag is dropped, and every other channel is unchanged |
| AudioKeys.FilingKeepsTable | src/audio_key.rs:46-50 | filing a fresh sender keeps the table consistent and every settled outcome |
| AudioKeys.SettlingKeepsTable | src/audio_key.rs:27-41 | removing and settling a sender keeps the table consistent and every settled outcome |
| AudioKeys.AudioKeyManager.constructor | src/audio_key.rs:16-21 | the manager starts with counter 0 and no pending requests |
| AudioKeys.AudioKeyManager.Request | src/audio_key.rs:45-56 | `request` files the new channel under the current tag, replacing only that entry, and advances the counter by one. It sends one `0x0c` packet carrying that same tag, and settled channels keep their outcome |
| AudioKeys.AudioKeyManager.SendKeyRequest | src/audio_key.rs:58-66 | `send_key_request` sends exactly one `0x0c` packet whose payload is the 42-byte request, and changes no table state |
| AudioKeys.AudioKeyManager.Dispatch | src/audio_key.rs:24-43 | `dispatch` panics on a reply under 4 bytes without touching the table. Otherwise it removes only the reply's tag. It settles that sender, or changes nothing when the tag is not pending |
| AudioKeys.AudioKeyManager.Poll | src/audio_key.rs:74-81 | polling the future of a channel waits exactly while it is unresolved, yields the completed key exactly after a key completion, and yields the error after an error completion or a dropped sender |
| AudioKeys.KeyReplyResolves | src/audio_key.rs:24-56 | a key reply carrying the request's tag completes the channel with that key and the future yields it; a second reply with the same tag leaves the channel as it was |
| AudioKeys.ErrorReplyFails | src/audio_key.rs:36-40 | a reply with any command other than `0x0d` ends the request in the error |
| AudioKeys.StrayReplyIgnored | src/audio_key.rs:27-29 | a reply whose tag matches no pending request leaves the caller waiting |

## Left out

- Transport: `self.session().send_packet` is modelled as appending the command and payload to the ghost log `sent`. Nothing about the session, its connection or its reply routing is modelled.
- Locking: the `component!` macro and `self.lock` exist for concurrency. Each locked closure is one atomic step of a method, and interleavings of several threads are not modelled.
- Channels: `futures::sync::oneshot` is a handle number plus the receiver's view of it (`Outcome`). Dropping a `Sender` is the `SenderDropped` outcome. Task wake-ups and the futures scheduler are not modelled.
- `SeqGenerator` is not part of this model. Its `get` is taken to return the current value and advance by one modulo 2^32, starting from the `new(0)` value.
- Logging: `warn!` at src/audio_key.rs:37 is not modelled as output. Its only effect in the model is that it reads `data[4]` and `data[5]` when warnings are enabled. That is the `warnEnabled` input of `Dispatch`.
- Panics are returned as a status (`Panicked`, or `None` for `to_base16`) instead of unwinding. In `dispatch` the sender has already left the table when the copy or the warning panics, so unwinding drops it. With `panic = "abort"` the process would end instead.
- `read_num_bytes!` and `write_num_bytes!` (core/src/spotify_id.rs:14-38) are raw-pointer copies. Only their effect is modelled, as big-endian byte arithmetic (`to_be`).
- `fmt::Debug` and `fmt::Display` for `FileId` (core/src/spotify_id.rs:131-141) only wrap `FileId::to_base16`.
- Text is `seq<char>`, not UTF-8 bytes. Every character outside the ASCII alphabets is rejected by the parsers either way, because non-ASCII characters encode to bytes of 0x80 and above. `from_utf8(..).unwrap()` cannot fail on the ASCII digits written.
- FromBase16, FromBase62: overflow is modelled as release-mode wrap-around modulo 2^128. A debug build panics on the unchecked `n * 16` or `n * 62` instead.
- Polling does not consume the channel. `AudioKeyManager.Poll` reads the channel state, so polling again after `Ready` gives the same result. A real oneshot receiver gives up its value on the first `Ready`. After that, it reports `Canceled`, which `poll` turns into the error. The model only states the result of the first poll after a channel is settled.
- UnmaskedIndex: `as usize` is modelled for a 64-bit target, keeping the low 64 bits. On a 32-bit target only the low 32 bits are kept. `to_base16` would still panic for exactly the values of 16 or more, because the last shift that leaves a value of 16 or more leaves one below 256. The model does not state that 32-bit case.
- The scenario methods (`KeyReplyResolves`, `ErrorReplyFails`, `StrayReplyIgnored`) start from a fresh manager. The general cases are the contracts of `Request` and `Dispatch`.

## Findings

| source | as written | input that shows it | evidently intended | confidence | as-written member | corrected member |
|---|---|---|---|---|---|---|
| core/src/spotify_id.rs:88 | the table index `n.wrapping_shr(4 * i) as usize` is not masked to a nibble, so `BASE16_DIGITS[..]` is out of bounds whenever the shifted value is 16 or more | `SpotifyId(16).to_base16()` panics at i = 0 (index 16); every id of 16 or more panics | index `(n >> 4i) & 0xf`, giving the 32-digit hex text that `from_base16` inverts | not executed | SpotifyIdCodec.ToBase16 | SpotifyIdCodec.ToBase16Masked |
