# Colour visibility checker, modelled in Dafny

The program takes two colours written as six hex digits (`#1a2B3c`, with any number
of leading `#`), parses each into Red, Green and Blue channels, and judges whether the
pair contrasts enough by the W3C accessibility heuristic: the brightness difference
must reach 125, and after that the colour difference must reach 500. A parse
error ends the run with a fatal error; a failed threshold is an ordinary outcome.

The model covers `main.go`:

- `hex.dfy` (module `Hex`): hex digits (`0-9`, `a-f`, `A-F`),
  `DecodeString` (whether Go's `hex.DecodeString` succeeds and what it decodes, stated directly on characters)
  and a lower-case `EncodeByte` that serves as its partner in round-trip lemmas.
- `color.dfy` (module `ColorParser`): the `color` struct. The Go struct is used in two
  ways, so it has two forms here. `Color` is a class whose `Set` method updates
  `Red`, `Green` and `Blue` in place. `Rgb` is the value that `*color1` copies and that
  the contrast functions take. `Parse` is the pure specification that `Set` is proved
  against. `TrimLeftHashes` is `strings.TrimLeft(input, "#")`.
- `contrast.dfy` (module `Contrast`): `brightness`, `brightnessDifference`,
  `colorDifference`, `max`, `min`, the two thresholds and the decision of `main`
  as `Evaluate`.
- `program.dfy` (module `Program`): lines 77-103 of `main` as the method
  `CheckColors`, which allocates two colours, calls `Set` on each and evaluates them.
  `RunSpec` is its pure specification and `ExitStatus` gives the process status. The
  worked examples are lemmas here.
- `wrappers.dfy` (module `Wrappers`): `Option` and `Result`.

Three behaviours of `main.go` are worth stating:
- `Set` strips every leading `#` (`strings.TrimLeft`), however many there are.
- `Set` writes into an existing struct, and a failed `Set` leaves the old channel
  values in place.
- A bad hex pair error names its channel. The defensive errors come in two kinds:
  "hex value too large" for more than one decoded byte, and a per-channel "value too
  large"; neither can occur.

## Model

| member | source | states |
|---|---|---|
| Hex.DigitValue | main.go:28-47 | a hex digit (either case) decodes to a value below 16, and to one below 10 exactly when it is a decimal digit |
| Hex.DecodeString | main.go:28-47 | decoding succeeds exactly on an even-length all-hex string; it then yields one byte per digit pair, with byte i equal to the value of digits 2i and 2i+1; a failure names a non-hex character of the input or reports an odd length |
| Hex.DecodePair | main.go:28-47 | on a two-character slice decoding fails exactly when a character is not a hex digit, and otherwise yields exactly one byte, so the `len(...) > 1` checks can never fire |
| Hex.EncodeByte | main.go:28-47 | partner of the decoder: the two lower-case digits of a byte decode back to that byte |
| Hex.EncodePairValue | main.go:28-47 | decoding a digit pair and re-encoding it gives the pair back in lower case |
| Hex.PairValueDigits | main.go:28-47 | the high digit of a pair is the byte's sixteens and the low digit the remainder |
| Hex.LowerDigitOfValue | main.go:28-47 | re-encoding a digit's value gives the digit lower-cased |
| ColorParser.TrimLeftHashes | main.go:23 | the result is the input minus a leading run of `#` only, and does not itself start with `#` |
| ColorParser.TrimLeftHashesAfterHashes | main.go:23 | any number of extra leading `#` leaves the stripped string unchanged |
| ColorParser.ParseDigits | main.go:24-62 | after stripping, a successful parse has every channel in [0, 255] |
| ColorParser.Parse | main.go:22-64 | a successful parse has every channel in [0, 255] |
| ColorParser.ParseAfterHashes | main.go:23-26 | `Parse` of `#`+s, `##`+s or any run of `#` followed by s equals `Parse(s)` |
| ColorParser.DigitsSuccess | main.go:24-62 | the six-digit step succeeds exactly on six hex digits, with channels from digits [0:2], [2:4], [4:6] |
| ColorParser.ParseSuccess | main.go:24-62 | parsing succeeds exactly when six hex digits remain after stripping, and then Red, Green and Blue are the bytes of digits [0:2], [2:4] and [4:6] in that order |
| ColorParser.ParseLength | main.go:24-26 | the length error happens exactly when the stripped input is not 6 characters long, and it quotes the stripped input |
| ColorParser.DigitsBadDigit | main.go:28-47 | on six characters, a non-hex digit at position i gives a bad-pair error on pair i/2 or an earlier pair, quoting that non-hex pair |
| ColorParser.ParseBadDigit | main.go:28-47 | a non-hex character at position i of the stripped six makes parsing fail with a bad-pair error on its own pair or an earlier one (red, then green, then blue), quoting that non-hex pair |
| ColorParser.ParseNeverTooLarge | main.go:31-62 | every parse error is a length or bad-pair error; the defensive "too large" errors never occur |
| ColorParser.Encode | main.go:28-62 | partner of `Parse`: a colour with byte channels encodes as six lower-case hex digits |
| ColorParser.EncodeDigits | main.go:28-62 | encoding the colour decoded from six hex digits gives the digits back lower-cased |
| ColorParser.EncodeParse | main.go:28-62 | re-encoding a parsed colour as lower-case hex gives back the stripped input, lower-cased |
| ColorParser.DigitsEncode | main.go:28-62 | the six digits of an encoded colour decode to that colour |
| ColorParser.ParseEncode | main.go:22-64 | parsing an encoded colour, with or without a leading `#`, returns that colour |
| ColorParser.Color.constructor | main.go:77 | `&color{}` has all channels 0 |
| ColorParser.Color.Set | main.go:22-64 | returns no error exactly when `Parse` succeeds. On success the fields hold the parsed channels, each a byte. On an error it returns `Parse`'s error and leaves all three fields as they were. The defensive errors are never returned |
| Contrast.Max | main.go:124-129 | the result is one of the arguments and at least both |
| Contrast.Min | main.go:131-136 | the result is one of the arguments and at most both |
| Contrast.Brightness | main.go:114-116 | the weighted sum 299R+587G+114B divided by 1000 with Go's truncation toward zero (the result times 1000 brackets the sum from the zero side); for byte channels it lies in [0, 255] |
| Contrast.BrightnessExtremes | main.go:114-116 | black has brightness 0 and white 255 |
| Contrast.BrightnessOfGrey | main.go:114-116 | the weights sum to 1000, so a grey (v, v, v) has brightness v |
| Contrast.BrightnessMonotone | main.go:114-116 | raising channels never lowers brightness |
| Contrast.BrightnessDifference | main.go:106-112 | the result is non-negative and is the difference of the two brightnesses in one order or the other |
| Contrast.ColorDifference | main.go:118-122 | the sum of per-channel `max - min` equals abs(dR)+abs(dG)+abs(dB) |
| Contrast.DifferencesSymmetric | main.go:106-122 | both metrics are symmetric |
| Contrast.DifferencesZero | main.go:106-122 | both metrics are 0 on equal colours; colour difference is 0 only on equal colours; brightness difference is 0 exactly when the brightnesses agree |
| Contrast.BrightnessDifferenceZeroNotEqual | main.go:106-116 | distinct colours can have brightness difference 0 (000000 and 010000) |
| Contrast.DifferencesBounded | main.go:106-122 | for byte channels brightness difference lies in [0, 255] and colour difference in [0, 765] |
| Contrast.Evaluate | main.go:89-103 | the outcome is "brightness too low" exactly when bd < 125; otherwise "colour too low" exactly when cd < 500; otherwise acceptable; each outcome carries the figures it reports |
| Contrast.EvaluateSymmetric | main.go:89-103 | the verdict does not depend on the order of the colours |
| Contrast.EvaluateSame | main.go:89-103 | a colour against itself fails on brightness with difference 0 |
| Contrast.EvaluateBounds | main.go:89-103 | for byte channels the reported figures lie in [0,125), [0,500), or [125,255] and [500,765] |
| Contrast.EvaluateBlackOnWhite | main.go:89-103 | black against white is acceptable with bd 255 and cd 765 |
| Contrast.EvaluateNearGreys | main.go:89-94 | greys 777777 and 787878 fail on brightness with bd 1 |
| Contrast.EvaluateNearReds | main.go:89-94 | reds ff0000 and fe0000 fail on brightness with bd 1; colour difference is never reached |
| Contrast.EvaluateBlackOnGreen | main.go:96-101 | black against pure green passes brightness but fails colour difference with cd 255 |
| Program.ExitStatus | main.go:79-103 | the status is 0 exactly for a completed comparison, whatever its verdict, and 1 for a fatal parse error |
| Program.RunSpec | main.go:77-103 | the first colour's parse error wins and is the error reported, then the second's; only when both parse is the pair evaluated |
| Program.CheckColors | main.go:77-103 | setting two fresh colours and comparing them reports exactly `RunSpec`, and exits with 0 exactly when both strings parse; a completed comparison reports figures in the ranges byte channels allow |
| Program.ParsedHexColor | main.go:22-64 | six hex digits with or without one leading `#` parse to the bytes of their pairs |
| Program.ParseBlack | main.go:22-64 | "#000000" parses to (0, 0, 0) |
| Program.ParseBareBlack | main.go:22-64 | "000000" parses to (0, 0, 0) |
| Program.ParseWhite | main.go:22-64 | "#FFFFFF" parses to (255, 255, 255) |
| Program.ParseGrey77 | main.go:22-64 | "#777777" parses to (119, 119, 119) |
| Program.ParseGrey78 | main.go:22-64 | "#787878" parses to (120, 120, 120) |
| Program.ParseRedFF | main.go:22-64 | "#FF0000" parses to (255, 0, 0) |
| Program.ParseRedFE | main.go:22-64 | "#FE0000" parses to (254, 0, 0) |
| Program.ParseGreen | main.go:22-64 | "#00ff00" parses to (0, 255, 0) |
| Program.ParseNonHex | main.go:28-33 | "GGGGGG" fails on the red pair "GG" |
| Program.BlackOnWhite | main.go:77-103 | "#000000" against "#FFFFFF" is acceptable with bd 255 and cd 765 |
| Program.NearGreys | main.go:77-94 | "#777777" against "#787878" fails on brightness with bd 1 |
| Program.NearReds | main.go:77-94 | "#FF0000" against "#FE0000" fails on brightness with bd 1 |
| Program.BlackOnGreen | main.go:77-101 | "000000" against "#00ff00" fails on colour difference with cd 255 |
| Program.ShortFirstHex | main.go:24-26 | a five-character first colour is a fatal length error quoting it, with exit status 1 |
| Program.NonHexSecond | main.go:84-87 | "GGGGGG" as second colour is a fatal bad-pair error on its red pair |

## Left out

- Reading the two strings from the command line or from standard input, and the
  prompts (main.go:67-75): I/O. `CheckColors` and `RunSpec` take the strings as parameters.
- Printing the verdicts and error messages, `log.Fatalf` and `os.Exit`
  (main.go:80, 86, 91-93, 98-100, 103): I/O. The verdict is the `Outcome`, the
  error is the `ParseError`, and `ExitStatus` gives the process status.
- The text of the error messages: each `ParseError` holds what its message quotes,
  such as the stripped input, the bad pair, the decoded bytes or the channel value.
- The internals of Go's `encoding/hex`: `DecodeString` states whether decoding succeeds
  and what it decodes. Its error values are modelled but, as in the source, `Set` does
  not use them.
- Hex.DecodeString: on an error the model drops the bytes Go returns alongside it;
  `Set` ignores them.
- Characters versus bytes: a string is a sequence of characters, each standing for
  one byte. A non-ASCII character counts as one here, while Go's `len` counts its
  UTF-8 bytes, so the length check can differ on such input. Either way the input is
  rejected, because such a character is never a hex digit.
- Contrast.Brightness: 64-bit `int` overflow is not modelled. It cannot occur for
  the byte channels that `Set` produces.
