# Lexicoid, modelled in Dafny

Lexicoid turns a timestamp into a short, lower-case ID that can be used in a URL.
`Lexicoid.from` works in three steps:

1. `maybe_coerce_time` validates the argument and turns it into whole seconds since the Unix epoch. The argument may be an Integer, a Float, a Time, or anything that responds to `to_time`.
2. `bytes_from_number` takes the minimal big-endian bytes of that number.
3. `encode` packs the bytes, five at a time, into 5-bit groups. It spells each group in the alphabet `234567abcdefghijklmnopqrstuvwxyz`. That alphabet is increasing in code point.

`Lexicoid.now` applies `from` to the current time.
The global `Lexicoid(object, exception: true)` calls `from`. When the argument is rejected, it either re-raises the `ArgumentError` or returns `""`.

The model keeps the source's own form:

- **The byte loop** (`BigEndian.BytesFromNumber`) is a `while` loop that prepends bytes. It is proved equal to the function `MinimalBytes`.
- **The encoder** (`Encoder.Encode`) is an imperative method with the same structure as the source:
  - a result array sized `(8 * length + 4) / 5`;
  - per round, a buffer array allocated by the same `case` on the chunk length;
  - the five unrolled blocks of bv8 shifts, masks and ORs;
  - a write loop that masks each group with `& 31`;
  - a `break` after a short chunk.
- **The encoder's specification** is the bit grouping of section 6 of RFC 4648:
  - `Base32.Base32Encode` takes the big-endian bit string of the bytes;
  - it cuts the string into 5-bit fields from the most significant end;
  - it pads the last field with zero bits;
  - it maps each field through the alphabet.
- **The validation step** (`Normalizer.Normalize`) and the wrapper (`KernelExt.Lexicoid`) are pure functions over a `Result`.

The ID is sortable only among timestamps whose whole seconds need the same number of bytes (`Ordering.SortableWithinByteLength`).
Every timestamp from 1970-07-14 up to 2106-02-07 needs four bytes.
Across byte lengths the order breaks. `Vectors.NotSortableAcrossByteLengths` shows this with 100 ("gk") and 10000 ("6wc2"). The model follows the code here, not the broader sorting claim in the module's documentation (lib/lexicoid.rb:13-14).

Modules:

| module | covers |
|---|---|
| `Results` | the `Result` datatype |
| `BigEndian` | `bytes_from_number` |
| `Bits` | values and lexicographic order of bit strings |
| `Base32` | the RFC 4648 reference encoding |
| `Packing` | the unrolled packing and why it is that encoding |
| `Encoder` | `encode` |
| `Ordering` | string order |
| `Normalizer` | `maybe_coerce_time` |
| `Lexicoid` | `from` and `now` |
| `KernelExt` | `Kernel#Lexicoid` |
| `Vectors` | the test suite's examples |

## Model

| member | source | states |
|---|---|---|
| BigEndian.BytesFromNumber | lib/lexicoid.rb:95-104 | The loop returns exactly `MinimalBytes(number)`: `[0]` for zero, otherwise the base-256 digits without a leading zero byte. |
| BigEndian.MinimalBytes | lib/lexicoid.rb:95-104 | At least one byte; the first byte is 0 exactly when the number is 0. |
| BigEndian.MinimalBytesValue | lib/lexicoid.rb:87-104 | Folding the bytes back in big-endian order gives the number again. |
| BigEndian.MinimalBytesUnique | lib/lexicoid.rb:87-104 | The representation is canonical: any byte sequence with no leading zero byte (or the single byte 0) that folds to `n` is `MinimalBytes(n)`. |
| BigEndian.MinimalBytesLength | lib/lexicoid.rb:99-102 | `n` needs at most `k` bytes exactly when `n < 256^k`. |
| Base32.Base32Encode | lib/lexicoid.rb:113-114 | The output has `(8 * bytes + 4) / 5` characters, all from the alphabet of line 40. |
| Base32.EncodedLengthGrows | lib/lexicoid.rb:114 | More bytes give a strictly longer ID. |
| Base32.EncodeAppend | lib/lexicoid.rb:157-160 | A run of whole 5-byte chunks encodes independently of what follows it. |
| Base32.BitStringAppend | lib/lexicoid.rb:113-164 | The bit string of a concatenation is the concatenation of the bit strings. |
| Base32.FieldsAppend | lib/lexicoid.rb:157-160 | 5-bit fields never straddle a boundary that falls on a multiple of five bits. |
| Bits.LexLessIffValueLess | lib/lexicoid.rb:13-14 | For bit strings of equal length, lexicographic order is numeric order. |
| Bits.ValueInjective | lib/lexicoid.rb:13-14 | Equal-length bit strings with equal values are equal. |
| Packing.PackedField | lib/lexicoid.rb:126-151 | For a chunk of one to five bytes, the group the unrolled blocks put at position `j` is below 32 and equals RFC 4648 field `j` of the chunk's bit string. |
| Packing.PackedFields | lib/lexicoid.rb:119-151 | The buffer size the `case` picks (2, 4, 5, 7 or 8) is the number of RFC 4648 fields of the chunk, and each packed group is that field. |
| Packing.PackedGroupChunk | lib/lexicoid.rb:126-151 | Only the first five bytes take part in a round's packing. |
| Packing.BitStringAt | lib/lexicoid.rb:126-151 | Bit `8n + k` of the bit string is bit `7 - k` of byte `n`. |
| Encoder.PackFifthByte | lib/lexicoid.rb:126-129 | Writes `bytes[4] & 0x1F` and `bytes[4] >> 5` into groups 7 and 6 and leaves groups 0-5 alone. |
| Encoder.PackFourthByte | lib/lexicoid.rb:131-135 | ORs the low bits of `bytes[3]` into group 6, writes groups 5 and 4, and leaves the rest alone. |
| Encoder.PackThirdByte | lib/lexicoid.rb:137-140 | ORs the low bits of `bytes[2]` into group 4, writes group 3, and leaves the rest alone. |
| Encoder.PackSecondByte | lib/lexicoid.rb:142-146 | ORs the low bits of `bytes[1]` into group 3, writes groups 2 and 1, and leaves the rest alone. |
| Encoder.PackFirstByte | lib/lexicoid.rb:148-151 | ORs the low bits of `bytes[0]` into group 1, writes group 0, and leaves the rest alone. |
| Encoder.PackBytes | lib/lexicoid.rb:126-151 | After the five guarded blocks, every group of the zeroed buffer holds the packed group of the chunk. |
| Encoder.PackChunk | lib/lexicoid.rb:118-151 | One round's fresh buffer holds exactly the packed groups of the next chunk. |
| Encoder.WriteGroups | lib/lexicoid.rb:153-155 | Writes the spelt groups at `offset`; the cells before `offset` and after the written run are unchanged. |
| Encoder.SpellChunk | lib/lexicoid.rb:119-155 | One round's characters are the RFC 4648 encoding of its chunk. |
| Encoder.ChunkedEncodeGrouping | lib/lexicoid.rb:117-161 | Encoding round by round, five bytes at a time, gives the RFC 4648 encoding of the whole byte sequence. |
| Encoder.Encode | lib/lexicoid.rb:113-164 | The returned array is the RFC 4648 section 6 encoding of the bytes over the lexicographic alphabet. |
| Ordering.AlphabetOrder | lib/lexicoid.rb:40 | Alphabet position order is character order, in both directions, and distinct positions hold distinct characters. |
| Ordering.BitStringValue | lib/lexicoid.rb:87-104 | The bit string of the bytes has the value of their big-endian fold. |
| Ordering.FieldsOrder | lib/lexicoid.rb:113-164 | For bit strings of equal length, splitting into 5-bit fields preserves lexicographic order in both directions. |
| Ordering.SymbolsOrder | lib/lexicoid.rb:153-155 | Spelling equal-length group sequences preserves their order in both directions. |
| Ordering.SortableWithinByteLength | lib/lexicoid.rb:13-14 | For numbers with the same minimal byte length, `a < b` exactly when `a`'s ID sorts before `b`'s. |
| Normalizer.Normalize | lib/lexicoid.rb:174-189 | Success exactly for a non-negative number or a Time at or after the epoch, reached through any `to_time` chain. The result truncates the seconds. "non-negative", "after" and "one of" are each raised exactly in their own case. |
| Normalizer.NormalizeMonotone | lib/lexicoid.rb:175-180 | Truncation to whole seconds keeps the order of accepted inputs. |
| Lexicoid.LexicoidOf | lib/lexicoid.rb:66-72 | Fails exactly when the argument is rejected, with the same error. Otherwise the ID has at least two characters, all from the alphabet. |
| Lexicoid.From | lib/lexicoid.rb:66-72 | The method (coerce, bytes, encode, join) returns `LexicoidOf`. |
| Lexicoid.Now | lib/lexicoid.rb:83-85 | With a clock reading at or after the epoch, the ID of its whole seconds; with one before it, the "after" error. |
| Lexicoid.FromSortable | lib/lexicoid.rb:13-14 | Accepted arguments whose seconds need the same number of bytes get IDs ordered like their seconds. |
| Lexicoid.FromInjective | lib/lexicoid.rb:66-72 | Equal IDs come from equal whole seconds. |
| Lexicoid.FloatTruncates | lib/lexicoid.rb:175-177 | A non-negative Float gets the ID of its truncation. |
| KernelExt.Lexicoid | lib/core_ext/kernel.rb:27-32 | Returns the ID when `from` succeeds. Raises exactly when `exception` holds and the argument was rejected, with `from`'s error. Never raises when `exception` is false. |
| KernelExt.EmptyIffRejected | lib/core_ext/kernel.rb:29-31 | With `exception: false`, the result is `""` exactly when the argument was rejected. |
| KernelExt.FlagIrrelevantOnSuccess | lib/core_ext/kernel.rb:27-28 | For an accepted argument, both settings of `exception` give `from`'s ID. |
| KernelExt.KernelExamples | test/core_ext/test_kernel.rb:6-9 | An unsupported object (`"oops"`) raises by default and gives `""` with `exception: false`; 1234 gives `from`'s ID (test/test_lexicoid.rb:109), and the wrapper called with -1 raises the "non-negative" error that `from(-1)` raises (test/test_lexicoid.rb:110 checks it on `from`). |
| Vectors.Zero | test/test_lexicoid.rb:11 | `from(0)` is "22". |
| Vectors.Hundred | test/test_lexicoid.rb:12 | `from(100)` is "gk". |
| Vectors.TenThousand | test/test_lexicoid.rb:13 | `from(10000)` is "6wc2". |
| Vectors.JanuaryFirst | test/test_lexicoid.rb:21 | `from(1674301676)` is "gj7x3v2". |
| Vectors.JanuarySecond | test/test_lexicoid.rb:22 | `from(1674301677)` is "gj7x3vc". |
| Vectors.TwoToThe32 | test/test_lexicoid.rb:24 | `from(2**32)` is "26222222". |
| Vectors.LargestInt64 | test/test_lexicoid.rb:25 | `from(2**63 - 1)` is "jzzzzzzzzzzzy" (13 characters, two rounds). |
| Vectors.Clock | test/test_lexicoid.rb:113-117 | `from(1678943067)` is "gkdeaqs". |
| Vectors.NowExample | test/test_lexicoid.rb:113-117 | A Time at 1678943067 seconds gives "gkdeaqs", the ID `now` returns at that moment. |
| Vectors.NotSortableAcrossByteLengths | test/test_lexicoid.rb:12-13 | 100 < 10000, but "6wc2" (the ID of 10000) sorts before "gk" (the ID of 100). |
| Vectors.Rejections | test/test_lexicoid.rb:88-106 | A Time before the epoch, directly or through `to_time`, fails with "after". -1 and -1.0 fail with "non-negative". Any other object fails with "one of". |

## Left out

- Time zones, `DateTime` and `Time` parsing, and ActiveSupport durations are not modelled. A Time is its exact offset in real seconds from `EPOCH`, so the comparison `EPOCH <= object` becomes `seconds >= 0`.
- An object that responds to `to_time` is the variant `Convertible`, which holds the object its `to_time` returns. Duck typing and Ruby's class hierarchy are not modelled.
- Floats are exact reals. NaN, the infinities (`to_i` raises `FloatDomainError`) and `-0.0` are not modelled. `to_i` of a non-negative value is modelled as `Floor`.
- Lexicoid.Now takes the clock reading as a parameter instead of calling `Time.now`.
- The text of the `ArgumentError` messages is not modelled, only which of the three errors is raised (`Rejection`).
- `KernelExt.Lexicoid` models only the rescue of `ArgumentError`. Other exceptions from `to_time` conversions are not modelled.
- Making the method private in `Kernel` and injecting it into every object are not modelled.
- Encoder.Encode:
  - The result array starts with default characters instead of Ruby's `0` placeholders. Every position is overwritten, as the postcondition shows.
  - The final `join` becomes the array's contents as a string.
- The five unrolled blocks of `encode` are five small methods called under the source's length guards.
- `each_with_index` is a loop over the buffer's contents.
- Ruby's `<<` on Integers does not truncate, but here each byte is a `bv8`. Every left-shifted value in the source is masked to five bits, and a right shift of a byte cannot overflow 8 bits, so the result is the same.
- The sortability claim of lib/lexicoid.rb:13-14 is proved only within one minimal byte length. Across lengths it does not hold (`Vectors.NotSortableAcrossByteLengths`).
- The test vectors between 500000 and 1654401676 (test/test_lexicoid.rb:14-20) are not restated. The Float, DateTime, Time and zoned-Time variants of the vectors are covered by `Normalizer.Normalize` (truncation) and `Lexicoid.FloatTruncates`.
- The `VERSION` constant and test/test_helper.rb are not part of this model.
