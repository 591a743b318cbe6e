# Router and container command-line helpers: a Dafny model of the core

This project models three pieces of logic from a small command-line tool that talks to a
home router and to the local container engine, and it proves their properties:

- **The table renderer** (`src/table.rs`).
  - A record that can be shown as a table line gives two lists in one shared order:
    - upper-cased column names, one per serialized field;
    - one text per field: strings unchanged, booleans as `true`/`false`, integers in
      decimal.
  - `render_ansi` renders the records, and the model returns that text instead of
    printing it:
    1. It computes each column's width: the longest byte length of the header name
       and of every cell in that column.
    2. It prints a header line, every entry padded to `width + spacing`.
    3. It prints the flattened cells, padded the same way, with a newline after each
       row's last column and one final newline.
  - Records are explicit ordered lists of `(name, value)` fields (`Table.Record`).
  - `render_ansi`'s two imperative loops are kept as methods: the in-place update of
    the width vector and the cycling column counter. Each is proved against the
    specification functions `Widths` and `Body`.
- **The router login token** (`src/fritz.rs`).
  1. The text `challenge-password` is encoded as UTF-16 code units.
  2. Every unit above 255 is folded to `.` (0x2e).
  3. Each unit is written as two little-endian bytes.
  4. The bytes are hashed, and the digest is written as lowercase hex.
  5. The response is `challenge-` followed by that hex.

  The client object (`Fritz.FritzApi`) starts with the default session, which is
  replaced wholesale by whatever `login` returns.
- **The `docker ps` row builder** (`src/docker.rs`).
  - `format_port` writes a port mapping.
  - The loop of `Cli::ps` turns container summaries into table rows:
    - ids are cut to 12 characters;
    - names are joined with `, `;
    - the image label is `image/` plus up to 12 characters of the image id after its
      first seven (the length of `sha256:`), whatever those seven are;
    - every port after a container's first gets a row of its own.

Files:

- `wrappers.dfy`: `Option` and `Result`.
- `ints.dfy`: the `u8` and `u16` ranges.
- `arith.dfy`: multiplication and Euclidean division facts for the column counter.
- `seqs.dfy`: concatenation facts.
- `text.dfy`: decimal text, UTF-8 byte length, ASCII upper-casing, `take`/`skip`, `join`.
- `table.dfy`: the renderer.
- `fritz.dfy`: the login token and the client class.
- `docker.dfy`: port formatting, with a parser as its inverse, and the `ps` rows.

Three behaviours of the code that the model keeps as written:

- Column widths and padding use `str::len`, which counts UTF-8 bytes, not characters
  (`Text.ByteLen`).
- `Session::default()` has an empty session id and a zero block time.
- `login` returns the second reply as it is and has no rejected-login check, so the
  model has no rejected-login error. The TODO at src/fritz.rs:94 plans one that compares
  the reply's session id with the probe's.

## Model

| member | source | states |
|---|---|---|
| Table.Columns | src/table.rs:5-15 | one column name per field, the field's name upper-cased, in field order |
| Table.ColumnsAre | src/table.rs:5-11 | a record whose upper-cased field names are `names` has exactly the columns `names` |
| Table.Supported | src/table.rs:22-29 | the value kinds `cells` stringifies: strings, booleans and integers; any other kind reaches `unimplemented!()` |
| Table.AllSupported | src/table.rs:17-33 | every field of a record has a kind `cells` stringifies, so `cells` does not stop the program |
| Table.CellText | src/table.rs:22-29 | a string value is its own text, a boolean is `true`/`false`, an integer's text reads back as that integer; other value kinds are refused |
| Table.Cells | src/table.rs:17-37 | one cell per column, in the same order as `Columns`, each the text of its field's value |
| Table.CellsAre | src/table.rs:17-33 | a record of string fields has exactly those strings as its cells |
| Table.FlatCells | src/table.rs:47-50 | the `flat_map` of `cells()` over the rows: every row's cells, row after row |
| Table.FlatCellsLength | src/table.rs:47-50 | when every row has `n` fields, the flattened cells number `rows * n` |
| Table.FlatCellsAppend | src/table.rs:47-50 | flattening two lists of rows gives the cells of the first, then those of the second |
| Table.FlatCellAt | src/table.rs:47-50 | cell `c` of row `r` is flat cell `r * n + c` |
| Table.ColumnMax | src/table.rs:52-58 | the running maximum of the stepped inner width loop: the header length, raised by each cell of column `c` met among the first `k` flat cells |
| Table.Widths | src/table.rs:46-59 | the widths the two width loops compute: for each column, the largest byte length among its header name and the cells at flat indices `c`, `c + n`, `c + 2n`, ... |
| Table.ColumnMaxIsMaximum | src/table.rs:51-59 | the running width is at least the header and every cell of its column so far, and equal to one of them |
| Table.WidthsAreMaxima | src/table.rs:46-59 | each final column width is the maximum byte length of its header and of its cells at flat indices `i` with `i % n == c` |
| Table.RaiseColumn | src/table.rs:52-58 | the inner width loop sets `w[c]` to the maximum of its old value and column `c`'s cells, and changes no other entry |
| Table.ComputeWidths | src/table.rs:46-59 | the width vector after both passes equals the column maxima `Widths` |
| Table.ColumnOf | src/table.rs:69-80 | the cell loop's column counter always stays below the number of columns |
| Table.ColumnOfNext | src/table.rs:74-79 | the counter moves to the next column and, after the last column, back to 0, completing a row |
| Table.ColumnOfIsMod | src/table.rs:69-80 | the counter's value at flat cell `i` is `i % n` |
| Table.ColumnOfRow | src/table.rs:69-80 | cell `c` of row `r` is met in column `c` with `r` complete rows before it |
| Table.ColumnOfOffset | src/table.rs:69-80 | the `j`-th cell after a row start is in column `j` |
| Table.PadCount | src/table.rs:64 | the number of blanks after an entry: `width.saturating_sub(len) + spacing` |
| Table.Segment | src/table.rs:65 | one printed entry: its text followed by its blanks |
| Table.Line | src/table.rs:61-66 | the entries from a start index, one per column, each padded to its column's width, with no newline |
| Table.Body | src/table.rs:69-80 | what the cell loop has printed after the first `k` cells: each cell padded to its column's width, and a newline after each row's last column |
| Table.Layout | src/table.rs:45-81 | the header line and a newline, then the cell part, then one newline |
| Table.RenderText | src/table.rs:41-82 | what `render_ansi` prints: nothing for no rows, otherwise the layout of the first row's columns over the cells of all rows |
| Table.Printable | src/table.rs:69-72 | the rows `render_ansi` prints without stopping: every field supported, and no cells when the first row has no columns, since the cell loop would index an empty width vector |
| Table.RenderHeader | src/table.rs:61-67 | the header loop prints the line of padded column names, then a newline |
| Table.RenderCells | src/table.rs:69-80 | the cell loop prints each cell padded to its column's width, with a newline after each row's last column |
| Table.RenderAnsi | src/table.rs:41-82 | no rows print nothing; otherwise the header line, the cell rows and one final newline, as `RenderText` |
| Table.SegmentFits | src/table.rs:61-73 | a padded entry that fits is its text and exactly `width - len + spacing` spaces, `width + spacing` bytes in all |
| Table.ContentsFit | src/table.rs:64-72 | with the computed widths, every header name and every cell fits its column, so the padding never saturates |
| Table.LineByteLen | src/table.rs:61-66 | a line of fitting entries is as wide as the sum of its column widths plus one spacing per column |
| Table.BodyWithinRow | src/table.rs:69-80 | inside a row, the cells print as the line of those cells, with no newline |
| Table.BodyMidRow | src/table.rs:77-79 | a cell before the last column adds only its padded text |
| Table.BodyLastColumn | src/table.rs:74-76 | a cell in the last column adds its padded text and a newline |
| Table.BodyRow | src/table.rs:69-80 | a complete row prints as the line of its cells followed by a newline |
| Table.RowFits | src/table.rs:69-73 | the cells of a complete row fit their columns |
| Table.HeaderFits | src/table.rs:61-64 | the header names fit their columns |
| Table.RowsAligned | src/table.rs:61-80 | the header line and every row line are equally wide, so the columns line up |
| Table.SegmentNoNewline | src/table.rs:65 | padding adds no newline to an entry without one |
| Table.LineNoNewline | src/table.rs:61-66 | the header line itself holds no newline when no name does |
| Table.BodyNewlines | src/table.rs:69-80 | the cell part holds one newline per completed row |
| Table.RenderNewlines | src/table.rs:67-81 | with equally shaped rows and no newline in any entry, the output has `rows + 2` newlines: after the header, after each row and at the end |
| Text.NatToString | src/docker.rs:84-86 | a port number in decimal: at least one digit, and no leading zero unless the number is 0 |
| Text.IntToString | src/docker.rs:117-119 | an integer in decimal, with a leading `-` when negative (`to_string`) |
| Text.ByteLen | src/table.rs:46-72 | `str::len`: the sum of the UTF-8 widths (1 to 4 bytes) of the characters |
| Text.Join | src/docker.rs:100 | `join`: the parts with the separator between each neighbouring pair |
| Text.NatToStringRoundTrip | src/docker.rs:84-86 | a port number's decimal text reads back as that number |
| Text.IntToStringRoundTrip | src/docker.rs:117-119 | an integer's decimal text, with its sign, reads back as that integer |
| Text.IntToStringInjective | src/table.rs:25-27 | different integers never get the same decimal text |
| Text.ByteLenAppend | src/table.rs:54 | the byte length of a concatenation is the sum of the byte lengths |
| Text.ByteLenBounds | src/table.rs:54 | a text's byte length is between its character count and four times it, and equals the count for ASCII text |
| Text.Spaces | src/table.rs:65 | `" ".repeat(k)`: `k` blanks |
| Text.SpacesByteLen | src/table.rs:65 | `" ".repeat(k)` is `k` bytes |
| Text.ToUpper | src/table.rs:9 | upper-casing keeps the length and upper-cases each character in place |
| Text.ToUpperIdempotent | src/table.rs:9 | upper-casing twice is upper-casing once |
| Text.Take | src/docker.rs:97 | `take(k)` is a prefix of length `min(k, len)` |
| Text.Skip | src/docker.rs:125 | `skip(k)` is the suffix after the first `min(k, len)` characters |
| Text.JoinLength | src/docker.rs:100 | a join is as long as its parts plus one separator between each pair |
| Text.JoinAppend | src/docker.rs:100 | joining two non-empty lists is joining each, with one separator between them |
| Fritz.Utf16 | src/fritz.rs:63 | `encode_utf16`: the code units of each character, in order |
| Fritz.FoldUnit | src/fritz.rs:64-67 | a code unit above 255 becomes 0x2e, any other stays |
| Fritz.HashBytes | src/fritz.rs:62-70 | the buffer the loop fills: the two little-endian bytes of each folded code unit, in order |
| Fritz.HashInput | src/fritz.rs:62-70 | the buffer for a text: the bytes of its UTF-16 code units |
| Fritz.CodeUnits | src/fritz.rs:63 | a character below U+10000 is one code unit, itself; any other is a high and a low surrogate that give the character back |
| Fritz.Utf16Append | src/fritz.rs:63 | UTF-16 encoding of a concatenation is the concatenation of the encodings |
| Fritz.LeBytes | src/fritz.rs:69 | `to_le_bytes` gives two bytes, low first, that together give the unit back |
| Fritz.HashBytesShape | src/fritz.rs:62-70 | the buffer has two bytes per code unit: the unit, or 0x2e when above 255, then 0 |
| Fritz.HashBytesAppend | src/fritz.rs:62-70 | the buffer of concatenated units is the concatenation of the buffers |
| Fritz.EncodeHashInput | src/fritz.rs:62-70 | the encoding loop writes exactly `2 * #units` bytes, each unit folded and written little-endian, every odd byte zero |
| Fritz.FoldBmp | src/fritz.rs:63-67 | a character above U+00FF in the Basic Multilingual Plane hashes exactly like `.` |
| Fritz.FoldSupplementary | src/fritz.rs:63-67 | a character from U+10000 on hashes exactly like `..` |
| Fritz.HexByte | src/fritz.rs:78 | `{:02x}` writes a byte as two characters |
| Fritz.Hex | src/fritz.rs:74-79 | the digest's hex text has two lowercase hex digits per byte, so 32 for a 16-byte digest |
| Fritz.HexByteRoundTrip | src/fritz.rs:78 | the two digits of a byte are its high and low nibble |
| Fritz.UnHexCons | src/fritz.rs:74-79 | reading hex back takes the leading byte first |
| Fritz.HexRoundTrip | src/fritz.rs:74-79 | reading the hex text back gives the digest |
| Fritz.HexInjective | src/fritz.rs:74-79 | different digests never get the same hex |
| Fritz.ExpectedResponse | src/fritz.rs:62-83 | the token: the challenge, `-`, and the hex digest of the buffer of `challenge-password` |
| Fritz.ResponseShape | src/fritz.rs:83 | the response is the challenge, `-` and 32 hex digits, from which the challenge and the digest of the folded `challenge-password` bytes read back |
| Fritz.ComputeResponse | src/fritz.rs:62-83 | the response starts with `challenge-`, and the rest reads back as the digest of the folded bytes |
| Fritz.DefaultSession | src/fritz.rs:28-36 | `Session::default()`: empty session id and challenge, block time 0 |
| Fritz.FritzApi.constructor | src/fritz.rs:102-106 | a new client keeps its configuration and holds the default session |
| Fritz.FritzApi.Login | src/fritz.rs:53-97 | a failed probe fails; otherwise the result is the reply to posting the username and the token computed from the probe's challenge and the password, returned unchanged |
| Fritz.FritzApi.Authenticated | src/fritz.rs:100-110 | a failed login fails with its error; otherwise a new client with the given configuration whose session is exactly the login's reply |
| Docker.TypeSuffix | src/docker.rs:73-78 | the protocol suffix: none for the empty type, `/tcp`, `/udp` or `/sctp` |
| Docker.IdLength | src/docker.rs:54 | `ID_LENGTH`: 12 characters are kept of a container id and of an image id |
| Docker.ImageIdPrefix | src/docker.rs:55 | `IMAGE_ID_PREFIX` is `sha256:`; only its length, 7, is used, to skip that many characters of an image id (src/docker.rs:125) |
| Docker.FormatPort | src/docker.rs:71-88 | `ip:public->private` plus the suffix when both the ip and the public port are known, the ip `::` as `[::]`; otherwise `private` plus the suffix; an absent type as the empty one |
| Docker.SplitSuffixOf | src/docker.rs:73-78 | the protocol suffix `""`, `/tcp`, `/udp` or `/sctp` after a port number is recognised as that type |
| Docker.ParseMapped | src/docker.rs:79-84 | `ip:public->private/type` reads back as the ip, both ports and the type |
| Docker.ParseBare | src/docker.rs:85-87 | `private/type` reads back as the private port and the type |
| Docker.PortRoundTrip | src/docker.rs:71-88 | `format_port` loses nothing but what it does not show: the ip and public port only appear together, `::` becomes `[::]`, and no type reads as the empty type |
| Docker.EmptyRow | src/docker.rs:95 | `PsRow::default()`: every field empty |
| Docker.NetsOf | src/docker.rs:130-134 | the network names joined with `, `, or empty when the settings or their networks are absent |
| Docker.ImageLabel | src/docker.rs:120-128 | the image, a slash, then the image id without its first seven characters, cut to 12 |
| Docker.HasImageIds | src/docker.rs:120-123 | every container with an image has an image id; otherwise `ps` stops at the `expect` |
| Docker.MainRow | src/docker.rs:95-135 | the row a container itself gets: the id cut to 12, the names joined with `, `, its first port, the status, the size in decimal, the image label and the joined networks; empty where the summary has nothing |
| Docker.PsTable | src/docker.rs:93-138 | all rows: each container's main row and then a port-only row for each of its further ports, containers in input order |
| Docker.PortRow | src/docker.rs:109-111 | a default row with only `ports` set, to the formatted port |
| Docker.ExtraRows | src/docker.rs:102-113 | the `collapsed` vector: a port-only row for each port after the first, or none |
| Docker.ContainerRows | src/docker.rs:136-137 | what one container adds to `rows`: its main row, then its collapsed rows |
| Docker.PortRows | src/docker.rs:109-111 | one port-only row per port |
| Docker.CollapsePorts | src/docker.rs:102-113 | the first port goes on the main row; every further port gets a row of its own, in order |
| Docker.ContainerRow | src/docker.rs:95-135 | the loop body's row is the container's main row, and the rows it collapses are the rows of its ports after the first |
| Docker.PsRows | src/docker.rs:93-138 | the rows are each container's main row and then its extra port rows, containers in input order |
| Docker.ExtraRowsShape | src/docker.rs:102-113 | a container has `max(0, #ports - 1)` extra rows; row `i - 1` shows port `i` and nothing else |
| Docker.ContainerRowsShape | src/docker.rs:95-137 | a container takes `1 + max(0, #ports - 1)` rows, the first of them its main row; a container without ports leaves the main row's ports empty; the ports column lists its ports in order; every later row holds a port and nothing else |
| Docker.MainRowId | src/docker.rs:96-98 | the id is the first `min(12, len)` characters of the container id, or empty without one |
| Docker.MainRowImage | src/docker.rs:120-129 | the image column is `image/` plus characters 7 up to `min(19, len)` of the image id, or empty without an image |
| Docker.MainRowSizeStatus | src/docker.rs:114-119 | the size is the decimal text of the root file system size, the status is copied, and both stay empty when absent |
| Docker.JoinCommas | src/docker.rs:100 | joining comma-free names with `, ` puts exactly one comma between neighbours |
| Docker.MainRowNames | src/docker.rs:99-101 | a single name is shown as it is; `n` comma-free names show `n - 1` commas; absent names and networks stay empty |
| Docker.PsTableSnoc | src/docker.rs:136-137 | one more container appends its rows at the end |
| Docker.PsTableAppend | src/docker.rs:94-137 | the rows of two lists of containers are the rows of the first, then those of the second |
| Docker.PsTableLength | src/docker.rs:94-137 | the table has one row per port, and one for each container without ports |
| Docker.PsTableOrder | src/docker.rs:94-137 | container `k`'s rows sit together, right after the rows of the containers before it |
| Docker.ColumnNames | src/docker.rs:58-66 | the serialized field names under `rename_all = "UPPERCASE"`, in declaration order |
| Docker.Fields | src/docker.rs:59-67 | a row has seven fields, in declaration order |
| Docker.ToRecord | src/docker.rs:57-69 | a serialized row shows the columns `ID NAMES PORTS STATUS SIZE IMAGE NETS`, and its cells are the row's fields in that order, all of them strings |
| Docker.ToRecords | src/docker.rs:139 | the records are one per row, all renderable |
| Docker.ColumnNamesUpper | src/docker.rs:58 | the serialized names are already upper case, so the renderer shows them unchanged |
| Docker.SerializedRow | src/docker.rs:57-69 | the fields of a row, listed under the upper-case column names, read back as exactly those columns and cells |
| Docker.Ps | src/docker.rs:91-139 | `ps` prints the rendered table of the container rows, then the newline `println!` adds |

## Left out

- HTTP transport is not modelled: reqwest, the `login_sid.lua` and `data.lua` requests, XML and JSON decoding, and the form encoding of payloads. `Fritz.FritzApi.Login` instead takes the parsed probe reply, and a function that maps `(username, response)` to the parsed login reply.
- The router requests other than login (overview, reboot, reconnect, devices) are request sequencing over HTTP. They are not modelled.
- MD5 is a parameter `md5: seq<byte> -> seq<byte>`. `Fritz.IsDigest` says it yields 16 bytes; the digest algorithm itself is not modelled.
- `Fritz.FritzApi.Login`: the `expect` on an undecodable reply is not modelled. A decoding failure is folded into the parsed reply given as a parameter.
- The CLI dispatch (`Cli::run`, the subcommand enums), the configuration file and `src/main.rs` are argument and file I/O. They are not modelled.
- `DockerApi` is not modelled. The tokio runtime and bollard's `list_containers` are foreign asynchronous code; `Docker.Ps` takes the container summaries as its input.
- The nets column is the keys of a `HashMap`, whose iteration order is unspecified. `Docker.NetworkSettings` carries them as a list in whatever order the map yields them.
- Serde reflection is not modelled. A record is its ordered field list, and `Docker.ToRecord` lists a row's fields in declaration order. `serde_json` keeps that order only when built to preserve insertion order; otherwise its map yields keys sorted. The crate features are not part of this model. Columns and cells share one order either way.
- `Docker.Ps`: src/docker.rs:139 calls `table::Renderer::default().to_string`, which src/table.rs does not define. The model renders with `render_ansi` at an explicit spacing.
- Printing to standard output is not modelled. Every renderer returns the text it would print.
- `Text.ToUpper`: upper-cases ASCII letters only. `str::to_uppercase` also maps non-ASCII letters, and can change a text's length.
- `Table.CellText`: integers are unbounded. The `u64`/`i64` ranges of the JSON integer are not modelled.
- `Table.RenderAnsi`: requires that no cells exist when the first row has no columns. The cell loop would then index an empty width vector and panic.
- `Table.RenderAnsi`: requires every field to be a string, boolean or integer. Other value kinds reach `unimplemented!()`.
- `Docker.PsRows`: requires an image id wherever a container has an image. The source panics there with `expect`.
- `tools/fritz_mock_server.go` is an HTTP test server. It is not part of this model.
