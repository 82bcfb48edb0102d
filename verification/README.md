# Verified models of the request path

The application answers HTTP requests through the Crow library that it carries in its
source tree. This project models the parts of that path where the logic is hard, and
proves what they promise:

* **Routes** (`RouteTree`, `RouteRule`, `RouteProofs`, `RouteRedirect`, `RouteUrl`, `Trie`, `Router`).
  Rules are entered into a tree of nodes on the heap, the tree is compressed in place, and
  a URL is searched by backtracking with a stack of captured parameters. `RouteTree` holds
  the same tree as a value, and the simple thing that it speeds up: reading the list of
  rules. `RouteUrl` writes a rule and a URL from the same letters, tags and values.
* **The incremental HTTP parser** (`HttpBytes`, `HttpGrammar`, `HttpStep`, `HttpRun`, `HttpMarks`,
  `HttpRefine`, `HttpInv`, `HttpExec`, `HttpCut`, `HttpLength`, `HttpBody`, `HttpChunks`,
  `HttpNames`, `HttpMethods`, `HttpAsserts`, `HttpLine`, `HttpHeader`, `HttpRequest`).
  `HttpStep.Trans` is the switch over control state and byte. `HttpRun.Step` feeds one byte to the parser and to the request that
  `HTTPParser` builds; `HttpExec.HttpParser` is the buffered code with its marks and inner
  loops, proved to do what the bytes one by one do. `HttpRequest` starts at the other end:
  from a request's parts it writes the message, and the parser gives these parts back. The
  words and characters in its theorems are those of `HttpGrammar`, by character codes.
* **Mustache templates** (`MustacheScan`, `MustacheNest`, `MustacheTrim`, `MustacheParse`,
  `MustacheProgram`, `MustacheTree`, `MustacheRender`, `MustacheText`, `MustacheWritten`,
  `MustacheLaws`). A template is compiled to two flat arrays with jump targets and run with a
  context stack. `MustacheTree.Eval` renders the tree of sections recursively.
  `MustacheWritten` goes from the text of a template to the text on the page.
* **picojson** (`PicoValue`, `PicoParse`, `PicoRoundTrip`, `PicoInput`, `PicoStandard`):
  writing, the input with its lazy push-back, and the parser with its depth limit, against
  RFC 8259 and UTF-8.
* **Base64 and the application's passwords and tokens** (`Base64`, `Base64Standard`, `Auth`,
  `AuthTokens`).
* **Middleware calls** (`Middleware`): which before and after handlers run around a
  handler, and in which order.
* **SHA-1** (`Sha1`, `Sha1Standard`): the streaming object against FIPS 180-4.

`Texts` and `Wrappers` are shared. Bytes are characters below 256. Code that works in place
is a class whose methods are proved against functions on values; what the source promises is
then proved about these functions.

Calls into code outside are parameters: `strtod` of a `<float>` route parameter
(`RouteTree.DoubleScanner`, any scanner that ends later than it began), the key derivation
and the keyed hash (`Auth`), and what a middleware's before handler does
(`Middleware.Connection.ends`). `std::find`, `std::sort`, `strtoll`, `strtol` and `strtoimax`
are written out.

## Where the code is not what one might expect

These are modelled as the code has them.

* A NUL as the first byte of a `Connection` value is taken for a blank, because its lower
  case is one; the next byte of the value then reaches an assertion that the source says is
  never reached (`HttpAsserts.ConnectionAssertFails`). No other value does.
* An `Upgrade` value is looked at one byte ahead. A buffer that ends between `h` and `2`
  changes the outcome (`HttpCut.HarmfulCut`); no other cut does (`HttpCut.CutsDoNotMatter`).
* A header without a value is dropped from the request, unless it is the last one
  (`HttpRequest.KeptAll`).
* The name `Transfer-Encoding` is noted as soon as its letters were read, so a name that
  only begins with it counts as a coding as well (`HttpNames.NamesAreKnown`), and a request
  with such a header and no chunked coding is refused (`HttpRequest.FramingOf`).
* An inverted section pushes a null context, so that `{{.}}` in it fails to render
  (`MustacheTree.InvertedHidesTheDot`). Other tags do not see it
  (`MustacheTree.InvertedSeesOutside`).
* A tag of blanks only has its name end before it starts; the name is then the whole rest of
  the template (`MustacheProgram.SubText`).
* Objects do not use up the depth limit of picojson, only arrays do
  (`PicoRoundTrip.Levels`).
* The user name is put into a token's payload without escaping. The payload is the object
  meant just when the name can stand in a JSON string as it is (`AuthTokens.PayloadSays`);
  a name with a quotation mark is one that cannot (`AuthTokens.QuoteBreaksPayload`).
* SHA-1 keeps 32 bits of the message's length (`Sha1.PaddingIsStandard`).
* A redirect for a trailing slash has index 1 and so comes before every ordinary rule that
  matches the same URL (`RouteProofs.FindAgreesWithList`).

## Model

| member | source | states |
|---|---|---|
| RouteProofs.CompressionKeepsFind | include/Crow/include/crow/routing.h:765-796 | for every tree whose nodes below the head consume a character and every URL, the search after compression returns the rule index and the captured parameters that it returned before |
| RouteProofs.CompressionIsComplete | include/Crow/include/crow/routing.h:775-796 | after compression no node below the head can absorb its child; nodes are never added, and the tree changed exactly when their number shrank; compressing twice is compressing once |
| RouteProofs.FindAgreesWithList | include/Crow/include/crow/routing.h:855-1011 | after any sequence of successful `add` calls the search returns the smallest non-zero index among the added patterns that match the whole URL, or 0, with the captures of such a pattern |
| RouteProofs.FindIsSound | include/Crow/include/crow/routing.h:855-1011 | whatever index is found is stored for a pattern that matches the URL with the captures returned |
| RouteProofs.FindIsComplete | include/Crow/include/crow/routing.h:855-1011 | no stored pattern that matches has a smaller index than the one found |
| RouteProofs.AddThrowsIffPresent | include/Crow/include/crow/routing.h:1097-1100 | the next `add` throws if and only if the same segments were added with a non-zero index before |
| RouteProofs.AddedLookup | include/Crow/include/crow/routing.h:1019-1102 | `add` stores the index under its own segments and leaves what every other sequence of segments holds |
| RouteProofs.HeadIsSimpleIff | include/Crow/include/crow/routing.h:737-746 | the head is accepted by `validate` if and only if nothing is stored for the empty rule and all rules begin with one same character |
| RouteProofs.SlashRulesValidate | include/Crow/include/crow/routing.h:847-852 | a tree of rules that all begin with a slash always validates |
| RouteRule.BlueprintsKeepPattern | include/Crow/include/crow/routing.h:1019-1024 | the blueprint index that `add` puts on a node does not change the pattern a rule stands for |
| RouteRedirect.PatternBeforeSlash | include/Crow/include/crow/routing.h:1306-1313 | a rule without its trailing slash is a good rule, with the pattern of the rule but for the last segment |
| RouteRedirect.MatchWithSlash | include/Crow/include/crow/routing.h:855-1011 | what a pattern without `<path>` matches, the pattern with a slash matches when the URL gets one, with the same captures |
| RouteUrl.IntScans | include/Crow/include/crow/routing.h:892-912 | an `<int>` on any sign, any zeros and any decimal number is that number and ends behind it, if it fits 64 bits, and is no parameter otherwise |
| RouteUrl.UintScans | include/Crow/include/crow/routing.h:913-933 | the same for `<uint>` |
| RouteUrl.NoDigitNoNumber | include/Crow/include/crow/routing.h:899-900 | without a digit behind the sign neither is a number |
| RouteUrl.StringScans | include/Crow/include/crow/routing.h:955-976 | a `<string>` takes everything up to the next slash or the end |
| RouteUrl.UrlOfRule | include/Crow/include/crow/routing.h:1026-1060 | a rule written from letters and the tags of the source, and the URL written from the same letters and a value for each tag: the URL matches, and the parameters captured are exactly these values in this order |
| RouteUrl.UrlFindsItsRule | include/Crow/include/crow/routing.h:855-1011 | the search in the tree of all rules finds that rule with these values, or a rule that was entered under a smaller index |
| Trie.Node.AddFrom | include/Crow/include/crow/routing.h:1019-1102 | entering a rule character by character below a node, nodes being made where none follows, leaves the heap tree that stands for the value tree with the rule's segments added; false, and nothing changed, when the last node holds a rule |
| Trie.Node.OptimizeNode | include/Crow/include/crow/routing.h:775-796 | the in-place merging and descent leaves the node carrying the compressed tree |
| Trie.Node.Find | include/Crow/include/crow/routing.h:855-1011 | the backtracking search over heap nodes returns what the search over the value tree does, and leaves the shared parameter stacks as it found them |
| Trie.Trie.Add | include/Crow/include/crow/routing.h:1019-1102 | throws exactly for segments already present, and otherwise adds one entry |
| Trie.Trie.Validate | include/Crow/include/crow/routing.h:847-852 | accepts exactly the tries whose rules share a first character and are not empty, and then compresses |
| Trie.Trie.Find | include/Crow/include/crow/routing.h:1013-1016 | before and after compression: the smallest matching index of the list of entries, with captures of a matching entry |
| Router.Registering | include/Crow/include/crow/routing.h:1304-1332 | registering keeps every trie entry tied to the rule list: an ordinary entry to its own rule, a redirect to a rule with a trailing slash |
| Router.PerMethod.AddRule | include/Crow/include/crow/routing.h:1304-1332 | the rule is appended to the list and entered under its index, with the redirect entry for its pattern without the slash; no ordinary rule gets index 0 or 1 |
| Router.PerMethod.Find | include/Crow/include/crow/routing.h:1720-1726 | every index found is inside the rule list, so the exception for a corrupted trie is unreachable; an ordinary index is that of a rule which matches with these captures, and 1 is found only because of a rule with a trailing slash |
| Router.FoundIsListed | include/Crow/include/crow/routing.h:1717-1726 | the smallest matching index is below the size of the rule list, and a redirect is caused by a stored rule |
| Router.RedirectLands | include/Crow/include/crow/routing.h:1835-1843 | the URL a redirect names is matched by the rule that caused it with the same captures, unless the rule has a `<path>`, so the second request finds an index no later than its own |
| Router.RedirectIsFound | include/Crow/include/crow/routing.h:1304-1332 | once a rule with a trailing slash is registered, and after any later rules, every URL that its pattern without the slash matches finds the redirect |
| HttpExec.HttpParser.Execute | include/Crow/include/crow/http_parser_merged.h:633-1927 | a buffer read with marks, data callbacks and inner loops is accepted exactly when its bytes one by one are, and then leaves the same parser and the same request |
| HttpExec.HttpParser.FieldLoop | include/Crow/include/crow/http_parser_merged.h:1106-1248 | the inner loops over a header name, with their bulk byte count, do what the bytes do |
| HttpExec.HttpParser.ValueLoop | include/Crow/include/crow/http_parser_merged.h:1341-1516 | the same for a header value, with its look for the end of the line |
| HttpExec.HttpParser.DataBytes | include/Crow/include/crow/http_parser_merged.h:1723-1757 | the bulk reading of counted data does what its bytes do |
| HttpExec.HttpParser.EndOfInput | include/Crow/include/crow/http_parser_merged.h:712-728 | a call without data completes a body read to the end of the connection, and is an error inside a message |
| HttpExec.EndReads | include/Crow/include/crow/http_parser_merged.h:1897-1915 | at the end of a buffer at most one mark is set, and what it marks was read |
| HttpRefine.ByteRefines | include/Crow/include/crow/http_parser_merged.h:740-1893 | the actions of one byte on marks into a long buffer lead where a buffer of that byte alone does |
| HttpMarks.FreshOpens | include/Crow/include/crow/http_parser_merged.h:731-749 | a byte read with no mark set sets just the mark that the next buffer would set for the state it leads to |
| HttpCut.CutsDoNotMatter | include/Crow/include/crow/http_parser_merged.h:633-1927 | the same bytes cut into buffers in two ways leave the same parser, url, header pairs, body and completion, or fail in both, unless a cut separates an Upgrade value's `h` from a `2` |
| HttpCut.FeedsAreOneBuffer | include/Crow/include/crow/parser.h:111-133 | feeding the pieces is feeding their concatenation |
| HttpCut.HarmfulCut | include/Crow/include/crow/http_parser_merged.h:1274-1285 | the excepted cut does change the outcome, if and only if no upgrade was asked for before |
| HttpInv.TransKeeps | include/Crow/include/crow/http_parser_merged.h:740-1893 | every byte keeps the invariant of the parser: matchers inside their words, counts inside their range, chunk states only in chunked messages |
| HttpInv.RunKeeps | include/Crow/include/crow/http_parser_merged.h:633-1927 | the invariant holds after every run |
| HttpInv.DigitAccumulates | include/Crow/include/crow/http_parser_merged.h:1415-1430 | a digit of a Content-Length is accumulated without wrapping 64 bits or reaching the value for no length |
| HttpInv.HexAccumulates | include/Crow/include/crow/http_parser_merged.h:1786-1821 | so is a digit of a chunk size |
| HttpLength.ContentLengthIsItsValue | include/Crow/include/crow/http_parser_merged.h:1300-1313 | the value of a first Content-Length of any number of digits is read as its decimal number, below 2^64-1, or refused exactly when the number without its last digit exceeds (2^64-11)/10 |
| HttpLength.DigitsAreTheirValue | include/Crow/include/crow/http_parser_merged.h:1397-1430 | the same for the digits that continue a value, over any number of buffers |
| HttpBody.CountedBody | include/Crow/include/crow/http_parser_merged.h:1723-1757 | a body with a length is complete exactly when that many bytes were read, and they are what is delivered (section 3.3.3 of RFC 7230) |
| HttpBody.ChunkedBody | include/Crow/include/crow/http_parser_merged.h:1770-1888 | every completed chunked message is whole chunks, each with as much data as its size line says, a line of size zero and a trailer, and the body delivered is the chunks' data (section 4.1 of RFC 7230) |
| HttpBody.PartsAreRead | include/Crow/include/crow/http_parser_merged.h:1770-1888 | at every moment the bytes read since the headers decompose into chunks, the chunk under way and the trailer, with the body delivered so far |
| HttpChunks.ChunkedBodyIsRead | include/Crow/include/crow/http_parser_merged.h:1770-1888 | every well-formed chunked body without trailer fields is accepted and completes the message with its data |
| HttpNames.NamesAreKnown | include/Crow/include/crow/http_parser_merged.h:1106-1218 | for a name of token characters: the state behind it is that for connection, content-length, transfer-encoding or upgrade exactly when each letter of the name is the letter of that word or its capital; transfer codings are noted for the names that begin with the word |
| HttpGrammar.TokensAreTchars | include/Crow/include/crow/http_parser_merged.h:646-678 | the token table accepts exactly the tchar of section 3.2.6 of RFC 7230 |
| HttpGrammar.TokenFolds | include/Crow/include/crow/http_parser_merged.h:646-678 | and gives a letter of a word exactly for that letter and its capital |
| HttpGrammar.LowerFolds | include/Crow/include/crow/http_parser_merged.h:439 | inside header values so does the folding by a bit |
| HttpGrammar.HeaderCharsAreFieldChars | include/Crow/include/crow/http_parser_merged.h:459-460 | the characters allowed in a value are, with the line ends aside, the blanks, the visible ones and those above 127 (section 3.2 of RFC 7230) |
| HttpGrammar.UrlCharsArePathChars | include/Crow/include/crow/http_parser_merged.h:490-522 | the bit table of URL characters is the visible ones of ASCII without `#` and `?` |
| HttpGrammar.UnhexIsHexadecimal | include/Crow/include/crow/http_parser_merged.h:681-690 | the table of hexadecimal digits gives each digit its value in both cases, and nothing else has one |
| HttpMethods.MethodIsItsName | include/Crow/include/crow/http_parser_merged.h:769-864 | the text before the first blank is accepted if and only if it is one of the method names, and the method is then that one |
| HttpMethods.GuessNext | include/Crow/include/crow/http_parser_merged.h:811-864 | reading any method name letter by letter goes through its guesses, the turning table included |
| HttpRequest.MessageIsRead | include/Crow/include/crow/http_parser_merged.h:633-1927 | every message written from a method, a URL, a version, headers of any name and a body framed as they announce is accepted, and the application gets exactly these parts; names and values are told apart letter by letter, in any case |
| HttpRequest.MessageIsReadInPieces | include/Crow/include/crow/parser.h:111-133 | the same for every way of cutting it into buffers without the one harmful cut |
| HttpRequest.LengthIsRead | include/Crow/include/crow/http_parser_merged.h:633-1927 | a whole request as text: behind any plain headers a length written in decimal, under any spelling of its name, delivers just the data behind the empty line |
| HttpRequest.ChunkedIsRead | include/Crow/include/crow/http_parser_merged.h:633-1927 | the same for chunks whose sizes are written in hexadecimal, under any spelling of the name and of the word |
| HttpRequest.LimitIsKept | include/Crow/include/crow/http_parser_merged.h:292-299 | behind 81920 bytes of a head the next one is refused and delivers nothing |
| HttpRequest.HeadIsRead | include/Crow/include/crow/http_parser_merged.h:1580-1720 | after the empty line the parser refuses the message, completes it or goes on to a counted body, to chunks or to the end of the connection, as the headers together ask (section 3.3.3 of RFC 7230); method, URL, headers and connection parameters are those written |
| HttpRequest.FlagsMore | include/Crow/include/crow/http_parser_merged.h:1529-1557 | one more header adds just the flag that its words stand for |
| HttpRequest.KeptAll | include/Crow/include/crow/parser.h:41-87 | the request gets all headers that were written if and only if each but the last has a value |
| HttpHeader.HeaderPart | include/Crow/include/crow/http_parser_merged.h:1056-1578 | a header line with any name and a value or none is read: what it says is noted, the pair before it is filed, its own pair is held; its value counts as keep-alive, close or chunked exactly when it is that word letter by letter in any case, blanks behind it aside |
| HttpHeader.ValueGoes | include/Crow/include/crow/http_parser_merged.h:1341-1516 | each byte of a value keeps the length so far and the comparison with the words |
| HttpLine.UrlRun | include/Crow/include/crow/http_parser_merged.h:866-942 | a URL that the character table accepts is read whole and delivered |
| HttpLine.PathIsGood | include/Crow/include/crow/http_parser_merged.h:485-630 | for every method but CONNECT, a URL that begins with a slash or a star is accepted if and only if the rest is a path of the characters allowed by code, with any query |
| HttpLine.VersionPart | include/Crow/include/crow/http_parser_merged.h:944-1054 | the version behind the URL is read as its two digits |
| HttpAsserts.AssertsHold | include/Crow/include/crow/http_parser_merged.h:1728-1729 | in a run from a fresh parser every byte read finds the source's assertions about header names, transfer encoding, remaining lengths, the chunked flag and the byte count true |
| HttpAsserts.ConnectionAssertHolds | include/Crow/include/crow/http_parser_merged.h:1392-1395 | no value byte is read in the state for a Connection header as long as no Connection value starts with a NUL |
| HttpAsserts.NulReachesTheAssert | include/Crow/include/crow/http_parser_merged.h:1318-1331 | a Connection value that starts with a NUL reaches that assertion at its next byte |
| HttpAsserts.ConnectionAssertFails | include/Crow/include/crow/http_parser_merged.h:1392-1395 | a concrete header line that reaches it wherever headers are read |
| MustacheProgram.FlatRuns | include/Crow/include/crow/mustache.h:280-425 | running nested actions renders their nodes and goes on behind them with the context stack as it was |
| MustacheProgram.EachRuns | include/Crow/include/crow/mustache.h:386-397 | the loop over a list renders the section once for each element and leaves the stack as it was |
| MustacheRender.FlatIsTree | include/Crow/include/crow/mustache.h:280-425 | the flat program gives the text of the tree of sections or fails as it does, and returns the stack that it received |
| MustacheRender.Renderer.RenderInternal | include/Crow/include/crow/mustache.h:280-425 | the loop over fragments and actions with its jumps, pushes and pops gives what the flat run gives |
| MustacheRender.Renderer.AppendEscaped | include/Crow/include/crow/mustache.h:236-254 | the escaping loop appends the escaped text |
| MustacheRender.Render | include/Crow/include/crow/mustache.h:454-463 | a compiled program renders exactly what its tree of sections evaluates to |
| MustacheTree.EscapeIsSafe | include/Crow/include/crow/mustache.h:236-254 | escaped text holds none of the characters special in a page but ampersands that begin an entity |
| MustacheTree.InvertedSeesOutside | include/Crow/include/crow/mustache.h:348-376 | an inverted section renders as if no context had been pushed for it, when none of its own tags asks for the context itself |
| MustacheTree.InvertedHidesTheDot | include/Crow/include/crow/mustache.h:348-376 | and a tag for the context itself fails there |
| MustacheLaws.LookupIsInnermost | include/Crow/include/crow/mustache.h:171-234 | a name finds a value exactly when that is the member of the innermost object that has it |
| MustacheLaws.SectionsRepeat | include/Crow/include/crow/mustache.h:348-409 | a section shows its text once for true, a scalar or an object, once for each element of a list and never else; the inverted one just when the section shows nothing |
| MustacheLaws.SectionsShowEach | include/Crow/include/crow/mustache.h:386-397 | the dot in a section over a list is each element in turn |
| MustacheLaws.EscapedIsSafe | include/Crow/include/crow/mustache.h:305-345 | a template of escaped tags and of texts without markup renders no markup, whatever the contexts hold |
| MustacheLaws.EscapeShowsItself | include/Crow/include/crow/mustache.h:236-254 | a page that shows the escaped text shows the text |
| MustacheParse.Template.Parse | include/Crow/include/crow/mustache.h:495-731 | a template compiles if and only if its delimiters and tags read well and its tags are those of some tree of sections; the program compiled is nested, has these tags, and its tree is written with exactly these |
| MustacheParse.Template.Enter | include/Crow/include/crow/mustache.h:529-577 | entering an action keeps the blocks on the stack the ones without an end, with nested sections between them, and fails exactly for a closing tag that is not the last opened name |
| MustacheParse.Template.RenderString | include/Crow/include/crow/mustache.h:484-492 | a compiled template renders its tree |
| MustacheWritten.RenderText | include/Crow/include/crow/mustache.h:484-731 | text written from a tree of sections, tags and comments, in any of their spellings and with blanks around names, compiles, and renders what the tree evaluates to, where the lines of lone tags are cut as is told from the text alone |
| MustacheWritten.TemplatesCompile | include/Crow/include/crow/mustache.h:495-676 | every such text has the tags of a tree of sections |
| MustacheWritten.CutIs | include/Crow/include/crow/mustache.h:678-728 | the fragments cut in place are the texts around the tags cut by the rule for lone tags |
| MustacheText.ScanIs | include/Crow/include/crow/mustache.h:495-660 | scanning text and tags written one after the other gives each with its place, its type by its mark and its name without blanks |
| MustacheNest.TreeIsWritten | include/Crow/include/crow/mustache.h:538-577 | the tree of a program with matched names is written with the program's own tags |
| MustacheNest.TreesAreBalanced | include/Crow/include/crow/mustache.h:538-577 | the tags of any tree of sections are closed in order |
| MustacheScan.ScanCovers | include/Crow/include/crow/mustache.h:502-529 | fragments and tags follow one another through the whole text, from its start to its end |
| MustacheParse.Template.RemoveStandalones | include/Crow/include/crow/mustache.h:678-728 | the loop from the last tag to the first, which edits fragments in place, cuts every fragment as the fragments that were read say, in no particular order |
| MustacheTrim.CutTellsTheSame | include/Crow/include/crow/mustache.h:678-728 | a fragment whose end was already cut tells the tag before it the same as the whole fragment |
| MustacheTrim.OnlyBlanksAreCut | include/Crow/include/crow/mustache.h:678-728 | around a lone tag only blanks are cut, and one line end after it |
| PicoRoundTrip.RoundTrip | include/picojson/picojson.h:581-927 | a written value, compact or indented, is read back and exactly its text is consumed, if and only if no container lies inside more than 99 arrays |
| PicoRoundTrip.FitsIsLevels | include/picojson/picojson.h:993-1026 | the depth limit passes exactly the values whose containers lie inside fewer arrays than the limit |
| PicoRoundTrip.CharsOfEscaped | include/picojson/picojson.h:529-564 | any bytes written as a string are read back up to the closing quote |
| PicoRoundTrip.IntTextReads | include/picojson/picojson.h:486-491 | the text of a 64-bit integer is read as that integer |
| PicoStandard.Utf8Decodes | include/picojson/picojson.h:760-775 | the octets written for any code point decode to it by the grammar of section 4 of RFC 3629 |
| PicoStandard.EscapeReads | include/picojson/picojson.h:717-776 | an escape of four digits, or a surrogate pair of two for the code points above, is read as the octets of that code point (section 7 of RFC 8259) |
| PicoStandard.LoneSurrogateFails | include/picojson/picojson.h:743-756 | a surrogate on its own is refused |
| PicoStandard.OthersAreStandard | include/picojson/picojson.h:537-556 | what has no short escape is written as it is, or with four digits if it is a control character |
| PicoStandard.CompactIsStandard | include/picojson/picojson.h:581-646 | the compact text of a value is by the grammar of RFC 8259: items and members separated by commas |
| PicoInput.Input.Getc | include/picojson/picojson.h:661-673 | reading behind a lazy push-back takes exactly the next character |
| PicoInput.Input.ParseString | include/picojson/picojson.h:779-818 | the loop over a string accepts and yields what the grammar says |
| PicoInput.Input.ParseValue | include/picojson/picojson.h:876-927 | the recursive parser over the mutable input accepts exactly what the grammar does, with its value and its end |
| PicoInput.Parse | include/picojson/picojson.h:1122-1125 | parsing a whole text gives the grammar's value and the position behind it |
| PicoValue.Serialize | include/picojson/picojson.h:581-646 | the writing loops give the text of the value at its indentation |
| Base64.DecodeEncode | include/jwt-cpp/base.h:179-272 | decoding an encoding gives the bytes back, in both alphabets |
| Base64.DecodePadTrim | include/jwt-cpp/base.h:279-294 | also when the fill was cut off and put back |
| Base64.Encode | include/jwt-cpp/base.h:179-226 | the loop over triples and the switch on the rest give the encoding |
| Base64.Decode | include/jwt-cpp/base.h:228-272 | the loop over blocks and the switch on the fill give the decoding, or the same error |
| Base64.IndexOfSymbol | include/jwt-cpp/base.h:32-104 | the table of values is the inverse of the alphabet |
| Base64.AlphabetsAreStandard | include/jwt-cpp/base.h:32-104 | the alphabets are the tables of sections 4 and 5 of RFC 4648, by character code |
| Base64Standard.GroupIsNumber | include/jwt-cpp/base.h:184-199 | three octets are written as the four digits in base 64 of the number that they are in base 256 |
| Base64Standard.LastGroupIsNumber | include/jwt-cpp/base.h:201-225 | one or two last octets are written with zero bits added, in two or three digits and two fills or one |
| Base64Standard.GroupsFollow | include/jwt-cpp/base.h:179-226 | groups are written one after the other |
| Auth.Base64UrlEncode | src/auth_manager.cpp:58-83 | the application's own loop over a buffer of three gives the base64url encoding without fill |
| Auth.SameAsTrimmed | src/auth_manager.cpp:58-83 | which is jwt-cpp's encoding trimmed |
| Auth.FromToHex | src/auth_manager.cpp:17-32 | octets written in hexadecimal are read back |
| Auth.PasswordsVerify | src/auth_manager.cpp:34-55 | with any key derivation a password verifies against the hash of another exactly when the keys derived with the stored salt are equal; its own hash it always does |
| Auth.StoredForm | src/auth_manager.cpp:34-42 | what is stored is the sixteen octets of the salt, a colon and the thirty-two of the key, each as two hexadecimal digits at its place |
| Auth.AcceptedTokens | src/auth_manager.cpp:109-135 | with any keyed hash a token is accepted if and only if it is two parts and their own signature |
| Auth.GeneratedTokens | src/auth_manager.cpp:85-106 | every generated token is accepted; the parts before and between its dots decode to the header and the payload |
| AuthTokens.PayloadSays | src/auth_manager.cpp:91 | the payload is read by picojson as the object of user id, name and expiry with exactly these values if and only if the name holds no quotation mark, no backslash and no control character |
| AuthTokens.QuoteBreaksPayload | src/auth_manager.cpp:91 | a name with a quotation mark, for which it is not |
| AuthTokens.TokenSays | src/auth_manager.cpp:85-106 | a generated token is accepted, and its first two parts decode to texts that are read as the header and, under that condition, as the claims |
| Middleware.Criteria.Enabled | include/Crow/include/crow/middleware.h:286-328 | on a traversal in order the comparison with the index at the slider is membership in the packed indices |
| Middleware.PackedIsTheSet | include/Crow/include/crow/routing.h:70-74 | packing sorts, drops duplicates and keeps the set |
| Middleware.Connection.MiddlewareCallHelper | include/Crow/include/crow/middleware.h:136-172 | the before handlers run up to the first that ends the response, whose predecessors then get their after handlers |
| Middleware.Connection.HandleRule | include/Crow/include/crow/routing.h:1742-1776 | the local middlewares run inside the global ones, with an early end among them |
| Middleware.Connection.Handle | include/Crow/include/crow/http_connection.h:147-245 | the trace of a request: global and local before handlers, the handler, local and global after handlers in reverse, the response; or its short forms. The before handlers are those of the middlewares that are global, in order, then those that the rule names, in order, up to the first that ends the response; the handler runs once if none does |
| Middleware.TraceIsBracketed | include/Crow/include/crow/middleware.h:136-200 | in every such trace an after handler belongs to the before handler last open, and none is open when the response is sent |
| Middleware.TraceRunsEachOnce | include/Crow/include/crow/middleware.h:136-200 | every before handler runs at most once and its after handler exactly as often |
| Middleware.TraceRuns | include/Crow/include/crow/middleware.h:136-210 | if no before handler ends the response exactly the middlewares that are global or named run, the global ones first, each kind in increasing order, and then the handler once; otherwise exactly those up to the one that does |
| Sha1.SHA1.GetDigest | include/Crow/include/crow/TinySHA1.hpp:98-124 | for octets fed in any pieces the digest is the hash of the blocks of the padded message |
| Sha1.SHA1.ProcessBlock | include/Crow/include/crow/TinySHA1.hpp:157-205 | the schedule and the rounds with their inclusive-or functions are the compression of the standard |
| Sha1.PaddingIsStandard | include/Crow/include/crow/TinySHA1.hpp:98-124 | the padding is the standard's exactly for messages below 2^29 octets, and their digest is then the standard's (sections 5.1.1 and 6.1.2 of FIPS 180-4) |
| Sha1.OrForm | include/Crow/include/crow/TinySHA1.hpp:176-190 | the round functions as the code writes them are the standard's |
| Sha1Standard.RoundConstants | include/Crow/include/crow/TinySHA1.hpp:176-190 | the constants of the four phases are the square roots of 2, 3, 5 and 10 times 2^30, rounded down |
| Sha1Standard.AbcDigest | include/Crow/include/crow/TinySHA1.hpp:98-205 | the digest of "abc" is the published one, for the code and for the standard's padding |

## Left out

- HttpCut.CutsDoNotMatter: does not cover `qs_point`, whose value depends on the buffer in which the URL began.
- HttpCut.FeedsAreOneBuffer: requires non-empty pieces; a call without data means the end of the connection.
- HttpExec.HttpParser.Execute: takes buffers up to the header limit of 80 KiB and the first message only; callbacks do nothing that changes the parser, and after an error only the failure is stated, not the error code or the data delivered before it.
- HttpRequest.HeadIsRead: one coding in a Transfer-Encoding value, one blank behind the colon, no folded lines, and lines that end in CR and LF; `HttpStep.Trans` models the rest.
- HttpRequest.MessageIsRead: chunked bodies without trailer fields.
- HttpChunks.ChunkedBodyIsRead: states acceptance without trailer fields; `HttpBody.ChunkedBody` covers messages with them.
- MustacheWritten.RenderText: takes texts that hold no delimiter, names that hold no blank and no closing brace and begin with no mark, and no tag that changes the delimiters; `MustacheScan.ScanCovers` and `MustacheParse.Template.Parse` cover every text.
- RouteUrl.UrlOfRule: takes the text of a `<float>` to be read by the scanner that stands for `strtod`.
- MustacheRender.Render: stops at a partial, which would load another template, and so has no indentation; contexts hold no functions, and a name with a dot inside is looked up as one key.
- PicoRoundTrip.RoundTrip: has no floating point; the parser keeps the text of such a number.
- PicoInput.Parse: leaves out the text of the error message.
- Trie.Node.Find: leaves out the stack of blueprint indices, which is moved from before it is returned; blueprint indices in nodes are kept because they block merging.
- Router.PerMethod.AddRule: takes a rule in which every `<` starts a known tag; the source does not end its loop on any other.
- Middleware.Connection.Handle: takes a valid request that is routed to a rule whose handler ends the response once; exceptions, upgrades and requests refused before that are not part of it.
- Auth.PasswordsVerify: salts have sixteen octets and keys thirty-two, as the constants say.
- The router's answers for HEAD, OPTIONS and unknown methods, catch-all handlers and the blueprint tree.
- Crow's own JSON reader and writer, multipart messages and query strings.
- Sockets, timers, threads, static files, compression, logging and web sockets.
- The handlers, the database and the web page of the application.
