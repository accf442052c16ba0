# msgp: frame encoder, modelled in Dafny

This is a model of the frame encoder of msgp, a byte message protocol for Rust. `encode` takes a byte payload by mutable reference. It returns a new vector holding a length header followed by the payload, so that frames can be concatenated into one stream and split apart again.

The header is 1 to 4 bytes long. It holds the payload length in big-endian base 128, most significant group of seven bits first. Every header byte except the last has bit 7 set as a continuation marker. The header uses the fewest bytes the length needs. Lengths of 2^28 or more are refused by an assertion.

The project has two files:

- `frame.dfy` (module `Framing`) is the reference definition of the wire format. It defines `HeaderSize`, the base-128 `Groups` of a number, `Header`, `Frame`, and two ghost readers:
  - `HeaderValue` reads a header's low seven bits back as a number.
  - `HeaderEnd` scans a stream for the end of a header.
  The readers only serve to state what the header means. The protocol code has no decoder. The file also proves the lemmas about the format.
- `encode.dfy` (module `Encoder`) is the imperative model of `encode`.
  - `ByteVec` models `Vec<u8>`: a sequence field, with `Push` and a moving `Append`.
  - `Encode` follows the source's four threshold branches. A right shift by k bits is written as division by 2^k. A `& 0x7F` mask is written as `% 0x80`. A `| 0x80` on a value below 0x80 is written as `+ 0x80`.
  - `Encode` is proved to return `Frame` of the old payload and to leave the argument empty.
  - `EncodeTests` replays all twelve assertions of the crate's unit tests (src/lib.rs:50-126) against `Encode`'s contract. It has no contract of its own, so it has no row below.

`encode` empties its argument vector, because `Vec::append` moves the payload's bytes into the result. The model keeps this side effect: `Encode` ensures `val.data == []`.

## Model

| member | source | states |
|---|---|---|
| Framing.HeaderSize | src/lib.rs:14-43 | the header length is 1, 2, 3 or 4, and it is the fewest base-128 groups that hold `len`: `len < 128^n`, and `len >= 128^(n-1)` when n > 1 |
| Framing.Groups | src/lib.rs:21-40 | splitting a number gives exactly `n` groups, each below 128 |
| Framing.Mark | src/lib.rs:22-23 | setting bit 7 on all groups but the last gives a well-formed header whose low seven bits are those groups |
| Framing.Header | src/lib.rs:14-43 | the header has `HeaderSize(len)` bytes; bit 7 is set on each of them except the last, where it is clear |
| Framing.GroupsValue | src/lib.rs:21-40 | reading back the groups of `v` gives `v` when `v < 128^n` |
| Framing.HeaderRoundTrip | src/lib.rs:21-40 | the header's low seven bits, read big-endian in base 128, give exactly `len` |
| Framing.HeaderCanonical | src/lib.rs:19-37 | a header of more than one byte starts above 0x80: its leading group is never zero, by the lower bound of each branch |
| Framing.HeaderMinimal | src/lib.rs:14-43 | no well-formed header that states `len` is shorter than the encoder's |
| Framing.HeaderUnique | src/lib.rs:14-43 | the encoder's header is the only well-formed header without a leading 0x80 that states `len` |
| Framing.FrameSplit | src/lib.rs:10-44 | in a frame followed by any bytes, the header ends after `HeaderSize` bytes and states the payload length; the payload follows unchanged, and the rest of the stream after it is untouched |
| Encoder.OneByteHeaders | src/lib.rs:50-63 | lengths 0, 2 and 127 give headers `[0x00]`, `[0x02]` and `[0x7F]` |
| Encoder.TwoByteHeaders | src/lib.rs:65-84 | lengths 128, 129 and 16383 give `[0x81,0x00]`, `[0x81,0x01]` and `[0xFF,0x7F]` |
| Encoder.ThreeByteHeaders | src/lib.rs:86-105 | lengths 16384, 16385 and 2097151 give `[0x81,0x80,0x00]`, `[0x81,0x80,0x01]` and `[0xFF,0xFF,0x7F]` |
| Encoder.FourByteHeaders | src/lib.rs:107-126 | lengths 2097152, 2097153 and 268435455 give `[0x81,0x80,0x80,0x00]`, `[0x81,0x80,0x80,0x01]` and `[0xFF,0xFF,0xFF,0x7F]` |
| Encoder.ByteVec.constructor | src/lib.rs:15 | a new vector holds exactly the given bytes (empty for `res`) |
| Encoder.ByteVec.Push | src/lib.rs:16 | `push` adds one byte at the end and changes nothing else |
| Encoder.ByteVec.Append | src/lib.rs:17 | `append` moves all bytes of the other vector onto the end and leaves the other vector empty |
| Encoder.HeaderByBranch | src/lib.rs:14-40 | in each of the four branches, the bytes computed with shifts, masks and the continuation bit are exactly the reference base-128 header |
| Encoder.Encode | src/lib.rs:10-44 | for a payload below 2^28 bytes, the result is a fresh vector holding the header followed by the original payload, and the argument vector is left empty |

## Left out

- Encoder.Encode: the `assert!(len < 268435456)` at src/lib.rs:12 is a precondition of the model. A payload of 2^28 bytes or more makes the source panic, which ends the program and produces nothing, so there is no error result to model.
- `Vec::with_capacity` (src/lib.rs:15, 20, 27, 35) is modelled as a plain empty vector. The capacity is only an allocation hint with no observable effect.
- `usize`, `u16` and `u32` widths are not modelled. Lengths are unbounded naturals below 2^28, where none of the source's casts can truncate. Bytes are the integers 0 to 255.
- `encode_slice` is called by benches/lib.rs, but it is not defined in src/lib.rs. It is not part of this model.
- benches/lib.rs is a timing harness and has no logic of its own.
- Decoding and streaming reassembly of frames do not exist in src/lib.rs. They are not modelled as operations. `HeaderValue` and `HeaderEnd` exist only to state what the encoder's header means.
- Crate attributes and documentation metadata (src/lib.rs:1-8) describe no behaviour.
