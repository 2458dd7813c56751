# Vestaboard text-to-board codec and message client, in Dafny

This project models the core of `lib/esm/vestaAPI.js` in the vestaboard-api repository.

- **The encoder.** `stringToArray` splits a message on single spaces. It walks the tokens with a running cell counter and emits a flat list of character codes:
  - one code for each of the nine tile words (`degreeSign`, `redBlock` … `blackBlock`);
  - a blank for an empty token;
  - blanks up to the next 22-cell line boundary for the `return` word;
  - for any other word, one lookup per character plus a trailing blank, unless the next token is special.
- **The reshaping.** `characterArrayFromString` turns that flat list into the fixed board of 6 lines × 22 cells.
- **The client.** The `Vesta` class builds the request record for each call: URL, method, the two credential headers, and a body that is either `{text}` or `{characters}`.

Modules:

- `Wrappers` (wrappers.dfy): `Option`, used for JavaScript values that may be `undefined`.
- `Grid` (grid.dfy): the board shape, `useChar || 0`, the reshaping (`Reshape`), and a row-major flattening that serves as its independent reference.
- `Tokens` (tokens.dfy): `split(' ')` and its inverse, joining with single spaces.
- `Encoder` (encoder.dfy):
  - `isSpecial`;
  - `stringToArray`, as an imperative method with the counter as a loop variable, and its `.map` callback (the `switch`) as the method `EmitWord`;
  - `makeBoard`;
  - the left-fold specification `EncodePrefix` that the method is proved against;
  - lemmas about that specification.
- `VestaApi` (vesta.dfy): class `Vesta`. Its fields are `const` because the constructor sets them and nothing changes them. The request builders are functions on the class. `CharacterArrayFromString` is a method because it calls `makeBoard`.

The character table `characterCode`, the list `specialChar` and `emptyBoard` come from `lib/esm/values`, which is not part of this model.
- The table and the list are a parameter, `Encoder.CharTable`: a partial map from strings to integers (a missing key reads as `undefined`), plus a set of special words.
- The nine words hard-coded in the `switch` are a separate constant, `SwitchNames`, because nothing ties them to `specialChar`.
- The model assumes that `LINE_LENGTH` is 22 and that `emptyBoard` is 6 lines of 22 zeros. The `BoardCharArray` and `Line` types in lib/cjs/types.d.ts:2-26 fix only the 6 × 22 shape. The row offset `row * 22` in lib/esm/vestaAPI.js:111 is hard-coded to 22.

Behaviour of the code worth noting:
- Padding to 132 cells and truncation happen in `characterArrayFromString`, not in the encoder. The flat list itself can be longer or shorter than 132.
- A character missing from the table is emitted as `undefined`. It becomes a blank only when the board is built. A lone `return` at the start emits nothing at all.
- The constructor reads `config.api_key` and `config.api_secret`, while lib/cjs/types.d.ts:32-35 declares `apiKey`/`apiSecret`. The model keeps the fields as the code reads them (`Config`, each possibly undefined). It does not validate them, because the code does not.

## Model

Some functions only spell out a source expression, and the contracts of the rows below state their properties. They have no row of their own:
- `Encoder.Emission` and `Encoder.TokenCodes` give what the body of the `switch` emits (lib/esm/vestaAPI.js:26-60).
- `Encoder.WordCodes` is `word.split('').map(...)` (line 55).
- `Encoder.NextToken` is `splitArray[i + 1]` (line 56).
- `Grid.At` is an array read that gives `undefined` past the end (line 112).
- `VestaApi.MessageEndpoint` is the template URL (line 95).

| member | source | states |
|---|---|---|
| Tokens.Split | lib/esm/vestaAPI.js:21 | `split(' ')` yields at least one token and no token contains a space |
| Tokens.JoinSplit | lib/esm/vestaAPI.js:21 | joining the tokens with single spaces gives back the original text (nothing is lost by splitting) |
| Tokens.SplitJoin | lib/esm/vestaAPI.js:21 | splitting a join of space-free tokens gives back exactly those tokens (with JoinSplit, Split is exactly the inverse of joining) |
| Tokens.SplitWord | lib/esm/vestaAPI.js:21 | a text without spaces is a single token |
| Encoder.CharTable.Lookup | lib/esm/vestaAPI.js:36 | `characterCode[key]`: defined exactly when the table holds the key, and then it is the table's value for that key |
| Encoder.IsSpecial | lib/esm/vestaAPI.js:9-11 | `undefined` (the token after the last) is never special; a word is special exactly when it is in `specialChar` |
| Encoder.Classify | lib/esm/vestaAPI.js:26-54 | the switch's case analysis loses nothing: the token gives back its text, and it is a tile exactly for the nine switch words |
| Encoder.Tokenize | lib/esm/vestaAPI.js:21-24 | one token per piece of `split(' ')`, in order; each token is the switch's classification of its piece and gives the piece back |
| Encoder.ReturnPadding | lib/esm/vestaAPI.js:43-53 | the `return` blanks bring the counter to a multiple of 22, number fewer than 22, are all 0, and are absent exactly when the counter is already on a boundary |
| Encoder.EmitWord | lib/esm/vestaAPI.js:24-61 | the `switch` on one word emits what its classified token emits, and every branch advances the counter by exactly the number of codes it emits |
| Encoder.StringToArray | lib/esm/vestaAPI.js:20-66 | the imperative token walk returns the left fold `Encoding`; its loop keeps `charCount` equal to the number of codes emitted so far |
| Encoder.MakeBoard | lib/esm/vestaAPI.js:67-70 | returns the encoder's flat list unchanged |
| Encoder.EncodePrefixExtends | lib/esm/vestaAPI.js:23-63 | codes are only appended: the output for fewer tokens is a prefix of the output for more |
| Encoder.TokenEmission | lib/esm/vestaAPI.js:26-60 | per token: a tile adds exactly its one table code; an empty token one 0; `return` fewer than 22 zeros ending on a line boundary (none if already there); a word one lookup per character in order, plus a final 0 exactly when the next token is not special |
| Encoder.LastWordGetsBlank | lib/esm/vestaAPI.js:54-59 | when the last token is an ordinary word, the output ends with the trailing blank |
| Encoder.OnlyTiles | lib/esm/vestaAPI.js:27-38 | a message of tile words only emits exactly one code per word, with no separator blanks |
| Encoder.CodesComeFromTable | lib/esm/vestaAPI.js:26-60 | every emitted element is undefined, a blank, or a value of the character table: the encoder invents no codes |
| Encoder.EncodingOfEmpty | lib/esm/vestaAPI.js:39-42 | the empty message yields the flat list `[0]` and the all-blank board |
| Encoder.EncodingOfTile | lib/esm/vestaAPI.js:27-38 | a lone tile word yields one code and a board whose only possibly non-blank cell is (0, 0) |
| Encoder.EncodingOfWord | lib/esm/vestaAPI.js:54-59 | a lone ordinary word yields one lookup per character and then one blank |
| Encoder.LongWordTruncates | lib/esm/vestaAPI.js:107-117 | a space-free word of 132 or more characters gives the same board as its first 132 characters |
| Encoder.ReturnStartsNextLine | lib/esm/vestaAPI.js:43-53 | for `u return v` with short words, u starts line 0, v starts line 1, and every other cell is blank |
| Encoder.ReturnCodes | lib/esm/vestaAPI.js:43-59 | the flat list for `u return v` is u's lookups, zeros up to cell 22, v's lookups and a blank |
| Encoder.FirstLine | lib/esm/vestaAPI.js:43-59 | a short first word followed by `return` fills exactly the first 22 cells, the word then blanks |
| Encoder.BoardCodesInRange | lib/esm/vestaAPI.js:107-117 | when the table's codes lie in 0..71, every board cell does too |
| Grid.Zeros | lib/esm/vestaAPI.js:47 | `new Array(n).fill(0)` is n blanks |
| Grid.OrZero | lib/esm/vestaAPI.js:113 | `useChar \|\| 0`: undefined becomes 0, a number stays itself |
| Grid.Reshape | lib/esm/vestaAPI.js:107-117 | always 6 lines of 22 cells; every cell is either 0 or the flat element at index 22 * row + col |
| Grid.FlattenIndex | lib/cjs/types.d.ts:2-26 | reading a board of 22-cell lines row by row puts cell (r, c) at index 22 * r + c |
| Grid.ReshapeRowMajor | lib/esm/vestaAPI.js:109-116 | the board read row-major is exactly the first 132 flat elements, each passed through `\|\| 0` |
| Grid.ReshapeTruncates | lib/esm/vestaAPI.js:112 | flat output beyond cell 132 does not affect the board |
| Grid.ReshapePadsWithBlanks | lib/esm/vestaAPI.js:113 | trailing blanks do not change the board, so short output is padded with blanks |
| Grid.ReshapeOfBlanks | lib/esm/vestaAPI.js:109-117 | a flat list of blanks and undefined values gives the empty board |
| Grid.ReshapeSingle | lib/esm/vestaAPI.js:109-116 | a one-element flat list puts its value in cell (0, 0) and leaves every other cell blank |
| Grid.ReshapeTwoLines | lib/esm/vestaAPI.js:109-116 | flat output of at most 44 cells fills lines 0 and 1 from flat indices 0..21 and 22..43; lines 2 to 5 stay blank |
| VestaApi.SubscriptionOfMessageEndpoint | lib/esm/vestaAPI.js:95 | the message endpoint can be read back to the subscription id it was built from |
| VestaApi.Vesta.constructor | lib/esm/vestaAPI.js:72-76 | captures key and secret from the config; the base URL is the fixed platform URL |
| VestaApi.Vesta.Request | lib/esm/vestaAPI.js:77-88 | the URL is the base URL followed by the endpoint (recoverable from it); exactly the two credential headers, with the constructor's values; method and data passed through |
| VestaApi.Vesta.GetSubscriptions | lib/esm/vestaAPI.js:89-93 | a signed GET of `/subscriptions` without body |
| VestaApi.Vesta.PostMessage | lib/esm/vestaAPI.js:94-101 | a signed POST to the subscription's message endpoint; the body is `{characters}` exactly when the message is an array, and it gives the message back |
| VestaApi.Vesta.GetViewer | lib/esm/vestaAPI.js:102-106 | a signed GET of `/viewer` without body |
| VestaApi.Vesta.CharacterArrayFromString | lib/esm/vestaAPI.js:107-118 | 6 × 22 board whose cell (r, c) is flat element 22 * r + c when present and truthy, and 0 otherwise |
| VestaApi.Vesta.ClearBoardTo | lib/esm/vestaAPI.js:119-124 | a POST to the subscription, signed with the constructor's key and secret, with a `{characters}` body that is a 6 × 22 board in which every cell is the table's code for the given symbol |

## Left out

- The input domains are narrower than JavaScript's:
  - `Message` holds a string or an array of lines of codes. In the source, any array goes out as `{characters}`, a flat one included. Any non-array goes out as `{text}`, including a number, an object or `undefined`.
  - `HttpMethod` has only GET and POST, the two methods the class uses. `request` passes on any axios `Method` (lib/cjs/types.d.ts:51-54).
  - `Config` is always a record, so the `TypeError` that `new Vesta(undefined)` throws at lib/esm/vestaAPI.js:73 is not modelled.
- HTTP execution: `axios(config).then(r => r.data)` is network I/O. Every call ends at the request record it would send. The asynchronous result, HTTP errors and cancellation are not modelled.
- The character table, `specialChar` and `emptyBoard` in `lib/esm/values` are not part of this model. They are parameters. No code assignment is assumed, so the 0..71 range is a hypothesis of `BoardCodesInRange`.
- `JSON.stringify`: bodies are the `Body` datatype, not JSON text. How `undefined` cells would be serialised (as `null`) is not modelled.
- Lookups use JavaScript object-property semantics. Inherited properties such as `constructor` on the character table are not modelled; a key is present only if the table holds it.
- `word.split('')` splits into UTF-16 code units. Here a string is a sequence of Dafny characters, so characters outside the Basic Multilingual Plane are not split into surrogate halves.
- Vesta.Request: the default `endpoint = ''` is not a default parameter here; callers pass the endpoint explicitly.
- The factory `createVestaboard`, the RW and Local clients, `createTransitionBoards` and `convertBoardLayoutToString` appear only as declarations (lib/cjs/index.d.ts). Their code is not part of this model. The same holds for the enablement-token exchange, cancellation, and the grid-to-text converter.
- The data-fetching and formatting scripts, the OAuth flows and the demo conversion in meeting.mjs are outside the core. They do network, clock, file and floating-point work.
