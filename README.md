# netlist-viewer back end in Dafny

This project models the netlist back end of the netlist viewer, a wxWidgets
program that reads a SPICE netlist and draws its subcircuits on a grid. Two
copies of the back end are modelled: the current one (`NetlistViewer/src`)
and the older one (`trunk/NetlistViewer/src`).

The modelled parts are:

- **The SPICE value parser** `svString::getValue`, in `values.dfy`. A token
  such as `2.3nF` splits into three parts: a mantissa made of
  `0123456789.+-`, a multiplier (`E<exp>` or an entry of the `g_mult` table)
  and an optional unit name (an entry of `g_units`). The result is
  `Value(mantissa text, power of ten)`. `atof` and `pow` stay out of the
  model. The model proves round trips for each multiplier form, the seven
  self-test strings of the application, and the parser's quirks:
  - a mantissa may be empty, so `BC547` is accepted as 0;
  - `MEG` is read as milli;
  - `10F` is femto, while `10FARAD` is rejected;
  - text after the multiplier that starts with no unit name is accepted.
- **The devices**, in `geometry.dfy`, `properties.dfy` and `devices.dfy`:
  - The kinds C R L D I V M Q J E G.
  - The fixed geometry tables.
  - The node list, which is bounded by `getNodesCount()`.
  - `isConnectedTo` and the node-position lookup.
  - The four families of property parsers.
  - `clone`. The E and G sources clone to default-constructed objects.
- **The device factory**, in `registry.dfy`: an ordered prototype list
  (`svDeviceFactory`) that hands out clones of the first prototype with a
  matching identifier character.
- **The text stage**, in `text.dfy`, `parsing.dfy`, `circuit.dfy` and
  `load.dfy`:
  - Trimming the lines and dropping blank and `*` lines.
  - Pairing each `.SUBCKT` with the next `.ENDS`.
  - The line-by-line parser `parseSPICESubCkt`, as the `svCircuit` class
    whose fields it updates.
  - `svParserSPICE::load`, which pushes a copy of each parsed subcircuit.
  - The parser's `release()` clears the name the constructor gave, so every
    loaded circuit is nameless.
- **The connectivity graph** of `buildGraph`, in `graph.dfy`:
  - One vertex per non-ground node, numbered by the node's rank in `std::string` order.
  - Per device, a clique over the positions of its non-ground nodes.
- **Placement**, in `placement.dfy` and `circuit.dfy`, covering `placeDevices`:
  - the non-overlapped and heuristic strategies;
  - the Kamada-Kawai branch, which moves nothing;
  - the normalising translation;
  - the `updateBoundingBox` fold.
- **The older copy**, in `trunk.dfy`:
  - `svSubckt`.
  - `svParser::loadSubCkt`, which parses onto the subcircuit it is given
    without clearing it.
  - Its `load`.
  - The placement and offset computed inside `svSubckt::draw`.

The two copies share one definition wherever their code is the same. This
covers the value parser, the device classes, the per-line rules and
`buildGraph`. They differ only in names.

State that the source mutates is modelled by classes:

| class | source state |
|---|---|
| `Devices.Device` | device fields |
| `Circuits.Circuit` | circuit fields |
| `Trunk.Subckt` | subcircuit fields |
| `Registry.DeviceFactory` | the static prototype vector |

Each class has a `Model()` or `Value()` function giving its abstract value.
The methods are proved against functions on those values, and the lemmas
state the properties of those functions.

## Model

| member | source | states |
|---|---|---|
| SpiceValue.RunLength | NetlistViewer/src/netlist.cpp:88-114 | the counted run: every character in it is in the table, and the character after it, if any, is not |
| SpiceValue.StartsWithOneOf | NetlistViewer/src/netlist.cpp:88-114 | with a length pointer it always returns true and the length is the run of table characters; without one it returns whether the string is empty or starts with a table character |
| SpiceValue.UpperChar | NetlistViewer/src/netlist.cpp:128 | `toupper` in the "C" locale: a lower-case ASCII letter becomes its capital (code minus 32), any other character is returned unchanged, and the result is never a lower-case letter |
| SpiceValue.Upper | NetlistViewer/src/netlist.cpp:127-128 | the suffix after the mantissa, upper-cased character by character (also `wxString::Upper` at netlist.h:368, 732 and 864): same length, no lower-case ASCII letter left, every other character kept |
| SpiceValue.UpperOfCapitals | NetlistViewer/src/netlist.cpp:127-128 | upper-casing a text with no lower-case ASCII letter gives the same text |
| SpiceValue.Atoi | NetlistViewer/src/netlist.cpp:146 | `atoi` skips leading white space, takes an optional sign and the leading digits; the result is negative only after a `-`, and 0 when no sign or digit follows the white space |
| SpiceValue.FirstMultiplier | NetlistViewer/src/netlist.cpp:153-176 | the first row of `g_mult` whose long (or short) name prefixes the suffix; no earlier row matches; none means no row matches |
| SpiceValue.FirstUnit | NetlistViewer/src/netlist.cpp:190-203 | the first row of `g_units` whose non-empty long name or short name prefixes the text; no earlier row matches; none means no row matches |
| SpiceValue.UnitRest | NetlistViewer/src/netlist.cpp:186-206 | the text left after a unit name; none exactly when no row matches; otherwise the rest comes from the first matching row, through its long name whenever that name is non-empty and prefixes the text, else through its short name |
| SpiceValue.GetValue | NetlistViewer/src/netlist.cpp:116-213 | an accepted token's mantissa is its prefix of mantissa length |
| SpiceValue.MantissaIsLongestNumberPrefix | NetlistViewer/src/netlist.cpp:118-125 | the reported mantissa is the longest prefix made of `0123456789.+-`, possibly empty |
| SpiceValue.RejectionOnlyAfterUnitName | NetlistViewer/src/netlist.cpp:186-206 | a token is rejected exactly when the first unit row matching the text after the multiplier, long name tried first, leaves characters behind; a remainder that starts with no unit name is always accepted |
| SpiceValue.NumberRoundTrip | NetlistViewer/src/netlist.cpp:125-134 | a bare mantissa parses to itself with power 0 |
| SpiceValue.ExponentRoundTrip | NetlistViewer/src/netlist.cpp:138-150 | mantissa, `e` or `E`, and the decimal text of any integer n parse to power n |
| SpiceValue.AtoiOfIntText | NetlistViewer/src/netlist.cpp:146 | `atoi` of the decimal text of n is n |
| SpiceValue.ExponentTextHarmless | NetlistViewer/src/netlist.cpp:146 | the exponent substring, one character longer than the measured run, gives `atoi` the same value as the run itself |
| SpiceValue.LongMultiplierRoundTrip | NetlistViewer/src/netlist.cpp:151-164 | mantissa, a long multiplier name (any case) and an optional unit name parse to that row's power |
| SpiceValue.ShortMultiplierRoundTrip | NetlistViewer/src/netlist.cpp:165-176 | the same for every short name except `MEG` |
| SpiceValue.UnitOnlyRoundTrip | NetlistViewer/src/netlist.cpp:178-183 | mantissa and a unit name not starting with F parse with power 0 |
| SpiceValue.FirstLongMultiplier | NetlistViewer/src/netlist.cpp:154-162 | a long name followed by anything is matched by its own row |
| SpiceValue.FirstShortMultiplier | NetlistViewer/src/netlist.cpp:165-176 | a short name other than `MEG` followed by anything is matched by its own row in the short search |
| SpiceValue.UnitNameConsumed | NetlistViewer/src/netlist.cpp:190-203 | a unit name alone leaves nothing behind |
| SpiceValue.SelfTests | NetlistViewer/src/app.cpp:186-210 | the seven self-test strings parse to the listed mantissas and powers |
| SpiceValue.SelfTestExponent | NetlistViewer/src/app.cpp:193 | `2.3e-9` parses to 2.3 times 10^-9 |
| SpiceValue.SelfTestNano | NetlistViewer/src/app.cpp:194 | `23.3n` parses to 23.3 times 10^-9 |
| SpiceValue.SelfTestNanoFarad | NetlistViewer/src/app.cpp:195 | `2.3nF` parses to 2.3 times 10^-9 |
| SpiceValue.SelfTestPicoFarad | NetlistViewer/src/app.cpp:196 | `99.9pFaraD` parses to 99.9 times 10^-12 |
| SpiceValue.SelfTestVolt | NetlistViewer/src/app.cpp:197 | `10V` parses to 10 |
| SpiceValue.MegIsMilli | NetlistViewer/src/netlist.cpp:165-176 | `MEG` after a mantissa is read as milli: the short search reaches `M` first |
| SpiceValue.LoneFIsFemto | NetlistViewer/src/netlist.cpp:165-176 | `10F` is 10 femto, not 10 farad |
| SpiceValue.FaradWithoutMultiplierFails | NetlistViewer/src/netlist.cpp:165-206 | a mantissa followed by `FARAD` is rejected: `F` is taken as femto and `ARAD` starts with the unit `A` |
| SpiceValue.UnknownUnitAccepted | NetlistViewer/src/netlist.cpp:186-206 | a mantissa followed by `X` is accepted with power 0 |
| SpiceValue.LetterTokenAccepted | NetlistViewer/src/netlist.cpp:116-183 | a token starting with a letter that begins no multiplier, exponent or unit is accepted as the value 0 with an empty mantissa |
| SpiceValue.NoDigitsAccepted | NetlistViewer/src/netlist.cpp:116-134 | `BC547` is accepted as 0 |
| SpiceValue.TextAfterUnitRejected | NetlistViewer/src/netlist.cpp:205-206 | a mantissa followed by `VX` is rejected |
| Geometry.RelativeNodePosition | NetlistViewer/src/netlist.h:342-349 | an offset exists exactly for indexes below `getNodesCount()`, and node 0's is the first table entry |
| Geometry.BuiltInShapes | NetlistViewer/src/netlist.h:509-526 | every built-in table is well formed, with 3 nodes for transistors and 2 for the others |
| Geometry.ExtentsAroundNodeZero | NetlistViewer/src/netlist.h:184-188 | node 0 is at (0,0), between the leftmost and rightmost columns and at or above the bottommost row |
| Geometry.KindShapeOk | NetlistViewer/src/netlist.h:184-188 | every kind whose traits are well formed has a well-formed table: every node lies within its extents |
| Properties.DefaultProps | NetlistViewer/src/netlist.h:335-338 | the members a default constructor leaves match the device's family |
| Properties.ParseProperty | NetlistViewer/src/netlist.h:151 | an accepted property keeps the members matching the family |
| Properties.ParseProperties | NetlistViewer/src/netlist.cpp:261-269 | the property loop keeps the members matching the family |
| Properties.ParseTransistor | NetlistViewer/src/netlist.h:532-539 | every token is accepted and becomes the model name; the channel flag is unchanged |
| Properties.ParsePassive | NetlistViewer/src/netlist.h:357-390 | an accepted token leaves passive members |
| Properties.ParseSource | NetlistViewer/src/netlist.h:721-750 | an accepted token leaves source members |
| Properties.ParseControlled | NetlistViewer/src/netlist.h:856-889 | an accepted token leaves controlled-source members |
| Properties.PassiveRejectsExactly | NetlistViewer/src/netlist.h:357-390 | the passive parser rejects a token exactly when it is not the first token and `getValue` rejects it |
| Properties.PassiveSetsValueOrModel | NetlistViewer/src/netlist.h:357-390 | an accepted passive token either sets only the value, to what `getValue` read, or is the first token and sets only the model name |
| Properties.IcTokenIsAValue | NetlistViewer/src/netlist.h:363-378 | every `IC=` token is already accepted by `getValue` as 0, so the initial-condition branch is never reached |
| Properties.PassiveValueStep | NetlistViewer/src/netlist.h:363-367 | a token `getValue` accepts sets the value and nothing else |
| Properties.ResistorValueExample | NetlistViewer/src/netlist.h:357-390 | a resistor's `<m>K` token sets its value to m times 10^3 |
| Properties.IcOverwritesValue | NetlistViewer/src/netlist.h:362-378 | `C... <m>U IC=5` ends with value 0 and the initial condition untouched: `IC=5` is read as a value |
| Properties.TransistorKeepsLastToken | NetlistViewer/src/netlist.h:532-539 | a transistor accepts any token list, and its model name is the last token, or unchanged when there is none |
| Properties.DcTokenIsAValue | NetlistViewer/src/netlist.h:727-742 | every `DC=` token is already accepted by `getValue` as 0 |
| Properties.SourceAcceptsExactlyValues | NetlistViewer/src/netlist.h:721-750 | the independent source accepts exactly the tokens `getValue` accepts, and stores that value |
| Properties.ValueModeIgnoresRest | NetlistViewer/src/netlist.h:861-862 | once a `VALUE` expression is stored, every further token is accepted and changes nothing |
| Properties.ValueModeEntered | NetlistViewer/src/netlist.h:864-867 | a token that starts with `VALUE` in any case puts an E or G source without an expression into value mode, the rest of the upper-cased token becoming the expression |
| Properties.ControlledGainRule | NetlistViewer/src/netlist.h:869-887 | without `VALUE`: index 0 sets the first control node and index 1 the second, for any token; at index 2 with both control nodes set the token is accepted exactly when `getValue` accepts it and then sets the gain to the value read; index 2 fails unless both control nodes are set; an index from 3 on fails; only index 2 can change the gain |
| Properties.GainLineExample | NetlistViewer/src/netlist.h:856-889 | `E... 10 11 1.0` sets both control nodes and the gain |
| Properties.BareValueKeywordFails | NetlistViewer/src/netlist.h:856-889 | `G... VALUE = {...}` fails: the bare `VALUE` stores an empty expression, and `=` at index 1 sets a control node, so index 2 fails |
| Properties.ValueExpressionAccepted | NetlistViewer/src/netlist.h:864-868 | `VALUE={V(3)}` followed by any tokens is accepted with the expression stored |
| Devices.DefaultValue | NetlistViewer/src/netlist.h:79-90 | a default-constructed device has its kind, no name and no nodes |
| Devices.DefaultValueOk | NetlistViewer/src/netlist.h:335-338 | a default device keeps the device invariant exactly when its kind's table is well formed |
| Devices.CloneValue | NetlistViewer/src/netlist.h:400 | a clone has the same kind and is either the original or a default device; it equals the original exactly when the kind's `clone` copies or the original is still default; it keeps the invariant |
| Devices.CloneIdempotent | NetlistViewer/src/netlist.h:899 | cloning a clone gives the same value |
| Devices.ControlledCloneIsBlank | NetlistViewer/src/netlist.h:909 | an E or G clone has no nodes, no name and blank members |
| Devices.FirstIndex | NetlistViewer/src/netlist.h:124-134 | the index of the first occurrence of a node |
| Devices.FirstIndexUnique | NetlistViewer/src/netlist.h:124-134 | an index holding the node with no earlier occurrence is the first index |
| Devices.Device.constructor | NetlistViewer/src/netlist.h:335-338 | a new device holds the default value for its kind |
| Devices.Device.Copy | NetlistViewer/src/netlist.h:400 | the copy constructor copies every field |
| Devices.Device.Clone | NetlistViewer/src/netlist.h:98 | returns a fresh object holding the clone value |
| Devices.Device.SetName | NetlistViewer/src/netlist.h:101-102 | sets the name and nothing else |
| Devices.Device.SetGridPosition | NetlistViewer/src/netlist.h:205-206 | sets the position and nothing else |
| Devices.Device.AddNode | NetlistViewer/src/netlist.h:109-113 | appends the node at the end of the list; allowed only below `getNodesCount()` |
| Devices.Device.IsConnectedTo | NetlistViewer/src/netlist.h:124-134 | true exactly when the node is in the list; the index is its first occurrence |
| Devices.Device.RelativePositionOf | NetlistViewer/src/netlist.h:176-182 | the offset of the first index holding the node, or `svInvalidPoint` when the node is absent |
| Devices.Device.ParseProperty | NetlistViewer/src/netlist.h:151 | the result is the family parser's verdict; an accepted token updates only the members, and a rejected one changes nothing |
| Registry.AllKinds | NetlistViewer/src/devices.cpp:76-90 | the twelve kinds in registration order, the external pin first |
| Registry.Defaults | NetlistViewer/src/devices.cpp:76-90 | one default prototype per kind, in order |
| Registry.LookupValue | NetlistViewer/src/devices.cpp:133-141 | none exactly when no prototype has the identifier; otherwise a device with that identifier |
| Registry.LookupFindsFirst | NetlistViewer/src/devices.cpp:133-141 | the result is the clone of the first prototype whose identifier matches |
| Registry.BuiltInIds | NetlistViewer/src/netlist.h:937-950 | the built-in identifiers in order are `CRLDIVMQJGE` |
| Registry.BuiltInIdsDistinct | NetlistViewer/src/netlist.h:937-950 | no two built-in kinds share an identifier |
| Registry.LookupAfterRegisterBuiltIns | NetlistViewer/src/netlist.h:927-935 | after the built-in registration each built-in identifier yields a default device of its kind |
| Registry.LookupAfterRegisterAll | NetlistViewer/src/devices.cpp:133-141 | after `registerAllDevices` a built-in identifier yields its kind, unless the external pin, registered first, has the same identifier |
| Registry.UnknownIdentifier | NetlistViewer/src/devices.cpp:133-141 | any other character finds nothing; the lookup is case-sensitive |
| Registry.DeviceFactory.constructor | NetlistViewer/src/netlist.cpp:48 | the registry starts empty |
| Registry.DeviceFactory.RegisterDevice | NetlistViewer/src/netlist.h:922-923 | appends the device to the prototype list |
| Registry.DeviceFactory.RegisterNew | NetlistViewer/src/netlist.h:922-923 | appends a default device of the kind |
| Registry.DeviceFactory.RegisterAllDevices | NetlistViewer/src/devices.cpp:76-90 | appends the twelve default prototypes in order |
| Registry.DeviceFactory.RegisterBuiltInDevices | NetlistViewer/src/netlist.h:937-950 | appends the eleven built-in prototypes in order, as both headers' inline version does |
| Registry.DeviceFactory.UnregisterAllDevices | NetlistViewer/src/devices.cpp:126-131 | empties the registry; every lookup then finds nothing |
| Registry.DeviceFactory.Lookup | NetlistViewer/src/devices.cpp:133-141 | null exactly when no prototype matches; otherwise a fresh object, never a registry one, holding the first match's clone; the registry is unchanged |
| NetlistText.TrimLeft | NetlistViewer/src/netlist.cpp:302 | removes exactly the leading whitespace |
| NetlistText.Trim | NetlistViewer/src/netlist.cpp:302-303 | `Trim(false)` then `Trim(true)`: never longer than the line, empty exactly when the line is all white space, otherwise starting and ending with a character that is not white space |
| NetlistText.TrimRight | NetlistViewer/src/netlist.cpp:303 | removes exactly the trailing whitespace |
| NetlistText.TrimShape | NetlistViewer/src/netlist.cpp:302-303 | a line is whitespace, its trimmed form and whitespace; the trimmed form has no whitespace at either end |
| NetlistText.TrimOfPadded | NetlistViewer/src/netlist.cpp:302-303 | trimming a padded text gives back the text |
| NetlistText.TrimIdempotent | NetlistViewer/src/netlist.cpp:302-303 | trimming twice is trimming once |
| NetlistText.WordLength | NetlistViewer/src/netlist.cpp:225 | the length of the run of non-space characters at the head |
| NetlistText.Tokens | NetlistViewer/src/netlist.cpp:225 | tokenizing at spaces yields only non-empty space-free tokens |
| NetlistText.TokensOfJoin | NetlistViewer/src/netlist.cpp:225 | tokenizing words joined by single spaces gives the words back |
| NetlistText.LeadingSpacesIgnored | NetlistViewer/src/netlist.cpp:225 | leading spaces do not change the tokens |
| NetlistText.Preprocess | NetlistViewer/src/netlist.cpp:300-308 | no kept line is empty or starts with `*` |
| NetlistText.Kept | NetlistViewer/src/netlist.cpp:306 | a line is kept exactly when it holds a character other than white space and the first such character is not `*` |
| NetlistText.PreprocessExactly | NetlistViewer/src/netlist.cpp:300-308 | by membership: a line is kept exactly when it is the trimmed form of an input line that is neither blank nor a comment |
| NetlistText.PreprocessInOrder | NetlistViewer/src/netlist.cpp:300-308 | the filter distributes over concatenation, so kept lines keep their input order and multiplicity |
| NetlistText.PreprocessOneLine | NetlistViewer/src/netlist.cpp:302-307 | one line is kept, trimmed, exactly when its trimmed form is non-empty and does not start with `*` |
| NetlistText.PreprocessTrimmed | NetlistViewer/src/netlist.cpp:302-303 | every kept line is already trimmed |
| NetlistText.SubcktName | NetlistViewer/src/netlist.cpp:342 | the name is the text after `.SUBCKT ` up to the first space |
| NetlistText.IsSubcktLine | NetlistViewer/src/netlist.cpp:319 | `StartsWith(".SUBCKT ")`, case-sensitive; a header starts with neither white space nor `*` |
| NetlistText.HeaderKept | NetlistViewer/src/netlist.cpp:302-319 | a `.SUBCKT` line passes the comment and blank-line filter, and its trimmed text still starts with `.` |
| NetlistText.SubcktFirstToken | NetlistViewer/src/netlist.cpp:319-328 | a header line's first space-separated token is `.SUBCKT` |
| NetlistText.IsEndsLine | NetlistViewer/src/netlist.cpp:327-328 | the first token is `.ENDS`; a header line is never taken for the end of a block |
| NetlistText.SubcktNameOf | NetlistViewer/src/netlist.cpp:318-342 | `.SUBCKT name rest` is a subcircuit line named `name` |
| NetlistText.FindEnds | NetlistViewer/src/netlist.cpp:323-333 | the first later line whose first token is `.ENDS`; none when no such line exists |
| Parsing.LineProto | NetlistViewer/src/netlist.cpp:236-242 | the prototype clone picked by the line's first character: well formed, without nodes, with that identifier |
| Parsing.LineStep | NetlistViewer/src/netlist.cpp:223-272 | skipped lines do nothing and never fail; any other line goes through exactly when it yields a device |
| Parsing.DeviceStep | NetlistViewer/src/netlist.cpp:244-271 | too few tokens fails before any node is added; otherwise the node tokens are added whatever follows, the line goes through exactly when the properties parse, and the device is the clone renamed, attached and parsed |
| Parsing.UnknownIdentifierFails | NetlistViewer/src/netlist.cpp:237-242 | an unknown identifier character fails the line |
| Parsing.LookupClonesAPrototype | NetlistViewer/src/netlist.cpp:237-242 | what the factory hands a line is a well-formed device without nodes |
| Parsing.LineResultOk | NetlistViewer/src/netlist.cpp:244-271 | a line's device is well formed and holds exactly its node tokens, `getNodesCount()` of them |
| Parsing.OkLineDevice | NetlistViewer/src/netlist.cpp:223-272 | a line that goes through yields a device exactly when it is not skipped |
| Parsing.DeviceOfLine | NetlistViewer/src/netlist.cpp:223-272 | the device a line yields: kind chosen by its first character, the rest of the first token as name, the next `getNodesCount()` tokens as nodes, the remaining tokens as properties |
| Parsing.ParseLinesSnoc | NetlistViewer/src/netlist.cpp:223-272 | one more line extends the parse by that line's step, unless parsing already failed |
| Parsing.Run | NetlistViewer/src/netlist.cpp:223-274 | the line results applied in order, stopping at the first failure; no results leave the state as it was and succeed, and a failure needs at least one result |
| Parsing.ParseLines | NetlistViewer/src/netlist.cpp:223-274 | the loop of `parseSPICESubCkt` from a given state; no lines leave the state as it was and succeed, and a failure needs at least one line |
| Parsing.FailureIsFinal | NetlistViewer/src/netlist.cpp:238-267 | once a line fails, later lines change nothing |
| Parsing.RunOkExactly | NetlistViewer/src/netlist.cpp:223-274 | applying line results succeeds exactly when every result succeeds |
| Parsing.RunKeepsConnected | NetlistViewer/src/netlist.cpp:253-271 | applying results only adds nodes and devices, keeps every device attached to the node set, and adds only well-formed devices with `getNodesCount()` nodes |
| Parsing.RunAppendsDevices | NetlistViewer/src/netlist.cpp:271 | a successful run appends one device per result that carries one |
| Parsing.LinesOkExactly | NetlistViewer/src/netlist.cpp:223-274 | the lines parse exactly when every line goes through on its own |
| Parsing.LinesKeepConnected | NetlistViewer/src/netlist.cpp:253-271 | parsing only adds; every device is attached only to nodes of the node set, and every new device holds exactly `getNodesCount()` nodes |
| Parsing.OneDevicePerLine | NetlistViewer/src/netlist.cpp:223-274 | on success, one device is appended per line that is not skipped |
| Parsing.RunAccumulates | trunk/NetlistViewer/src/netlist.cpp:211-267 | parsing onto a non-empty state gives the same outcome, with the node sets joined and the device lists concatenated |
| Parsing.ParseDeviceLine | NetlistViewer/src/netlist.cpp:225-271 | one line on objects: outcome, node tokens and device as the line step says; the device is a fresh object |
| Parsing.FillDevice | NetlistViewer/src/netlist.cpp:244-269 | names the device, attaches its node tokens and parses its properties, as the device step says |
| Parsing.AttachNodes | NetlistViewer/src/netlist.cpp:253-259 | appends the node tokens to the device in order |
| Parsing.ParsePropertyTokens | NetlistViewer/src/netlist.cpp:261-269 | the property loop with j = 0, 1, ...; it stops at the first rejected token |
| Graphs.StrLtTransitive | NetlistViewer/src/netlist.cpp:365-366 | `std::string` order is transitive |
| Graphs.StrLtIrreflexive | NetlistViewer/src/netlist.cpp:365-366 | no string is below itself |
| Graphs.StrLtAsymmetric | NetlistViewer/src/netlist.cpp:365-366 | no two strings are each below the other |
| Graphs.StrLtTotal | NetlistViewer/src/netlist.cpp:365-366 | `std::string` order is total |
| Graphs.Rank | NetlistViewer/src/netlist.cpp:364-366 | a node's index in the sorted vector is at most the node count |
| Graphs.SortedDistinctCard | NetlistViewer/src/netlist.cpp:364-366 | a strictly increasing vector has as many distinct elements as entries |
| Graphs.RankBounds | NetlistViewer/src/netlist.cpp:368-369 | with ground the smallest node, every other node has rank 1 to \|nodes\|-1 |
| Graphs.RankMonotone | NetlistViewer/src/netlist.cpp:364-386 | a smaller node has a smaller rank |
| Graphs.SortedRank | NetlistViewer/src/netlist.cpp:364-366 | in the sorted vector a node's position is its rank |
| Graphs.VertexNumbering | NetlistViewer/src/netlist.cpp:368-386 | non-ground nodes get the vertices 0 to \|nodes\|-2, in `std::string` order and without collisions |
| Graphs.LivePositions | NetlistViewer/src/netlist.cpp:377-388 | the positions of a device's non-ground nodes |
| Graphs.EdgesExactly | NetlistViewer/src/netlist.cpp:372-394 | an edge joins two vertices exactly when one device has their nodes at two different positions, neither of them ground |
| Graphs.Edges | NetlistViewer/src/netlist.cpp:372-394 | the edge set built device by device; every device's clique lies in it |
| Graphs.GraphOf | NetlistViewer/src/netlist.cpp:357-397 | the graph of `buildGraph`: empty for no nodes; otherwise, with ground the least node, one vertex per node other than ground |
| Graphs.CliqueExactly | NetlistViewer/src/netlist.cpp:390-393 | one device's edges are exactly the pairs of its non-ground nodes at different positions |
| Graphs.EdgesByDevice | NetlistViewer/src/netlist.cpp:372-394 | an edge is in the graph exactly when some device's clique holds it |
| Graphs.EdgesSymmetric | NetlistViewer/src/netlist.cpp:390-393 | every edge is there in both directions |
| Graphs.EdgesWithinVertices | NetlistViewer/src/netlist.cpp:369-393 | every edge joins vertices below the vertex count |
| Graphs.RepeatedNodeLoops | NetlistViewer/src/netlist.cpp:390-393 | a device listing one non-ground node twice puts a self-loop on its vertex |
| Graphs.SingleNodeNoEdge | NetlistViewer/src/netlist.cpp:390-393 | a device with at most one distinct non-ground node adds only self-loops on that vertex |
| Graphs.Least | NetlistViewer/src/netlist.cpp:364-366 | the smallest element of a non-empty set |
| Graphs.SortNodes | NetlistViewer/src/netlist.cpp:364-366 | the set's elements as a sorted vector |
| Graphs.DeviceIndexes | NetlistViewer/src/netlist.cpp:375-388 | the vertices of a device's non-ground nodes, in node order |
| Graphs.AddClique | NetlistViewer/src/netlist.cpp:390-393 | the `add_edge` loop adds exactly the clique |
| Graphs.BuildGraph | NetlistViewer/src/netlist.cpp:357-397 | the graph is the model graph: 0 vertices for no nodes, otherwise \|nodes\|-1 vertices and the device cliques |
| Placement.Reposition | NetlistViewer/src/netlist.h:205-206 | each device moved to its new position and otherwise unchanged |
| Placement.NonOverlappedLayout | NetlistViewer/src/netlist.cpp:408-426 | device 0 at the origin, one position per device |
| Placement.LastX | NetlistViewer/src/netlist.cpp:412-424 | the column `lastPt.x` when device i is placed; with well-formed devices it is at least device 0's rightmost column plus i |
| Placement.NonOverlappedStep | NetlistViewer/src/netlist.cpp:413-425 | one loop pass: the device goes `-leftmost.x` right of `lastPt`, which then moves past the device's width plus one |
| Placement.FirstConnected | NetlistViewer/src/netlist.cpp:463-473 | the first device from the start index attached to the node; none earlier is; none means none from there on is |
| Placement.SharedNode | NetlistViewer/src/netlist.cpp:454-461 | the heuristic's node is a non-ground node of device 0 |
| Placement.GroundRun | NetlistViewer/src/netlist.cpp:454-461 | the ground nodes at the head of a node list: all of them ground, the next one not |
| Placement.HeuristicLayout | NetlistViewer/src/netlist.cpp:446-481 | one position per device |
| Placement.HeuristicPointAt | NetlistViewer/src/netlist.cpp:468-471 | the moved device goes to (1 - leftmost.x, y offset of the first index holding the shared node) |
| Placement.HeuristicPoint | NetlistViewer/src/netlist.cpp:468-471 | the point the heuristic gives a connected device: its leftmost node lands on column 1, one right of device 0's node 0 |
| Placement.LowLeft | NetlistViewer/src/netlist.cpp:485-490 | at most 0 and at most every relative leftmost column |
| Placement.LowY | NetlistViewer/src/netlist.cpp:485-490 | at most 0 and every row, and either 0 or some device's row |
| Placement.LowX | trunk/NetlistViewer/src/netlist.cpp:438-443 | at most 0 and at most every position's column |
| Placement.Translate | NetlistViewer/src/netlist.cpp:493-494 | every device shifted by the same offset |
| Placement.Arranged | NetlistViewer/src/netlist.cpp:406-482 | one device per device, whichever strategy ran |
| Placement.Placed | NetlistViewer/src/netlist.cpp:406-494 | one device per device after the strategy and the translation |
| Placement.DeviceExtent | NetlistViewer/src/netlist.h:351-353 | a device's leftmost node is left of or on node 0, which is left of or on its rightmost node |
| Placement.NonOverlappedExtent | NetlistViewer/src/netlist.cpp:413-425 | each device from 1 on spans the columns from `lastPt.x` to `lastPt.x` plus its width, on device 0's rightmost row |
| Placement.NonOverlappedSideBySide | NetlistViewer/src/netlist.cpp:408-426 | each device's absolute leftmost column is the previous device's absolute rightmost column plus one |
| Placement.LastXGrows | NetlistViewer/src/netlist.cpp:424 | `lastPt.x` grows past each placed device by more than its width |
| Placement.NonOverlappedDisjoint | NetlistViewer/src/netlist.cpp:408-426 | horizontal extents are disjoint and follow device order |
| Placement.HeuristicMovesOne | NetlistViewer/src/netlist.cpp:446-481 | only one device leaves the origin: the first from index 1 attached to device 0's shared node; it lands with its leftmost node on column 1 |
| Placement.HeuristicNoMove | NetlistViewer/src/netlist.cpp:446-481 | with no shared node, or no device attached to it, every device stays at the origin |
| Placement.PlacedIsTranslation | NetlistViewer/src/netlist.cpp:484-494 | all devices shift by one offset; kinds, names, nodes and members are kept |
| Placement.PlacedKeepsDevices | NetlistViewer/src/netlist.cpp:399-498 | placement changes positions only and keeps the device invariant |
| Placement.PlacedRows | NetlistViewer/src/netlist.cpp:484-494 | every row ends at 2 or more, and some device sits on row 2 when a strategy ran |
| Placement.PlacedColumns | NetlistViewer/src/netlist.cpp:484-494 | with either strategy every leftmost node ends on column 2 or more |
| Placement.ArrangedColumns | NetlistViewer/src/netlist.cpp:406-481 | the non-overlapped and heuristic strategies put every position at column 0 or more |
| Placement.LastXPositive | NetlistViewer/src/netlist.cpp:412-425 | `lastPt.x` is at least 1 after any device is placed |
| Placement.BoxFoldContains | NetlistViewer/src/netlist.cpp:502-513 | the fold's edges enclose every device's extents |
| Placement.BoxFold | NetlistViewer/src/netlist.cpp:502-513 | the loop of `updateBoundingBox`: the box only widens from where it starts |
| Placement.BoundingBox | NetlistViewer/src/netlist.cpp:500-517 | `m_bb` after `updateBoundingBox`: the right and bottom edges never fall short of the previous width and height |
| Placement.BoxFoldTight | NetlistViewer/src/netlist.cpp:502-513 | each fold edge is its start value or some device's edge |
| Placement.BoundingBoxHoldsNodes | NetlistViewer/src/netlist.cpp:500-517 | every node of every device lies inside the box |
| Placement.BoundingBoxTight | NetlistViewer/src/netlist.cpp:500-517 | each box edge is a device edge, or the start value: `INT_MAX-1` for the left and top, the previous right and bottom edges for the others |
| Placement.DrawOffsetPositive | trunk/NetlistViewer/src/netlist.cpp:437-444 | the older offset puts every position at 2 or more in both coordinates, with some device on row 2 |
| Placement.DrawOffset | trunk/NetlistViewer/src/netlist.cpp:438-444 | `wxPoint(2,2) - offset` over the positions: both coordinates at least 2, and every translated position at 2 or more |
| Circuits.CloneAll | NetlistViewer/src/netlist.h:226-227 | one clone per device, in order |
| Circuits.CopyValue | NetlistViewer/src/netlist.h:220-228 | what `assign` copies: the same name, node set and box, and each device replaced by its clone, in order |
| Circuits.CopyKeeps | NetlistViewer/src/netlist.h:220-228 | a copy keeps name, nodes, box, device order and kinds; a device is kept exactly when its `clone` copies; E and G devices come out blank |
| Circuits.CopyIdempotent | NetlistViewer/src/netlist.h:220-228 | copying a copy changes nothing more |
| Circuits.CopyKeepsValid | NetlistViewer/src/netlist.h:220-228 | a copy keeps the device invariant |
| Circuits.PlacedCircuitHoldsNodes | NetlistViewer/src/netlist.cpp:399-517 | placing keeps name, nodes and node lists, and every device node lies in the new box |
| Circuits.PlacedValue | NetlistViewer/src/netlist.cpp:399-498 | the circuit after `placeDevices`: the same name, node set and number of devices, and with no devices a zero box |
| Circuits.Circuit.constructor | NetlistViewer/src/netlist.h:241-242 | a new circuit has the given name and is otherwise empty |
| Circuits.Circuit.Copy | NetlistViewer/src/netlist.h:244-248 | the copy constructor holds the copy value of the source, with fresh device objects |
| Circuits.Circuit.Release | NetlistViewer/src/netlist.h:230-238 | clears devices, name, nodes and box |
| Circuits.Circuit.Assign | NetlistViewer/src/netlist.h:220-228 | holds the copy of the source, with fresh devices; assigning a circuit to itself leaves it empty |
| Circuits.Circuit.SetName | NetlistViewer/src/netlist.h:279-280 | sets the name only |
| Circuits.Circuit.AddNode | NetlistViewer/src/netlist.h:264-265 | a set insertion, so adding a node twice changes nothing |
| Circuits.Circuit.AddDevice | NetlistViewer/src/netlist.h:269-270 | appends the device and takes ownership |
| Circuits.Circuit.AddNodes | NetlistViewer/src/netlist.cpp:253-259 | adds every token to the node set |
| Circuits.Circuit.ParseSubCkt | NetlistViewer/src/netlist.cpp:219-275 | releases the circuit, then parses lines `startIdx` to `endIdx-1`; outcome and contents follow the line rules, and the name is cleared |
| Circuits.Circuit.ParseLine | NetlistViewer/src/netlist.cpp:225-271 | one loop pass: the node tokens join the set, and the device, if any, is appended |
| Circuits.Circuit.BuildGraph | NetlistViewer/src/netlist.cpp:357-397 | the circuit's graph is the model graph of its nodes and devices |
| Circuits.Circuit.SetPosition | NetlistViewer/src/netlist.h:205-206 | moves one device and leaves the others alone |
| Circuits.Circuit.PlaceDevices | NetlistViewer/src/netlist.cpp:399-498 | with no devices only the box is reset; otherwise devices are placed by the strategy and translated, the box is recomputed from zero, and the box is returned |
| Circuits.Circuit.PlaceAndBound | NetlistViewer/src/netlist.cpp:406-497 | the non-empty case of `placeDevices` |
| Circuits.Circuit.PlaceNonOverlapped | NetlistViewer/src/netlist.cpp:408-426 | positions become the non-overlapped layout |
| Circuits.Circuit.PlaceRow | NetlistViewer/src/netlist.cpp:412-425 | the `lastPt` loop places devices 1 onward |
| Circuits.Circuit.PlaceHeuristic | NetlistViewer/src/netlist.cpp:446-481 | positions become the heuristic layout |
| Circuits.Circuit.ResetPositions | NetlistViewer/src/netlist.cpp:450-451 | every device goes to the origin |
| Circuits.Circuit.Normalise | NetlistViewer/src/netlist.cpp:484-494 | devices are translated by (2,2) minus the low corner |
| Circuits.Circuit.LowCorner | NetlistViewer/src/netlist.cpp:485-490 | the minimum of 0 and the relative leftmost columns, and of 0 and the rows |
| Circuits.Circuit.MoveAll | NetlistViewer/src/netlist.cpp:493-494 | every device is shifted by the offset |
| Circuits.Circuit.UpdateBoundingBox | NetlistViewer/src/netlist.cpp:500-517 | the box becomes the fold of the devices, started from the sentinel and the previous right and bottom edges |
| Circuits.FirstLiveNode | NetlistViewer/src/netlist.cpp:454-461 | device 0's first non-ground node among its first `getNodesCount()` nodes |
| Circuits.FindConnected | NetlistViewer/src/netlist.cpp:462-473 | the first device from index 1 connected to the node, and the first index of the node in it |
| Circuits.CloneDevices | NetlistViewer/src/netlist.h:226-227 | fresh, distinct clones, one per device, in order |
| Loader.LoadKeepsEarlier | NetlistViewer/src/netlist.cpp:346 | what was in the output array stays in front, also on failure |
| Loader.LoadFrom | NetlistViewer/src/netlist.cpp:316-347 | the outer loop from line i: at most one circuit is pushed per remaining line |
| Loader.LoadNetlist | NetlistViewer/src/netlist.cpp:298-348 | `load` once the file is split into lines: at most one circuit per line, and no lines succeed with the array unchanged |
| Loader.LoadOkExactly | NetlistViewer/src/netlist.cpp:314-348 | loading succeeds exactly when every `.SUBCKT` line has a later `.ENDS` and its block parses |
| Loader.OneCircuitPerSubckt | NetlistViewer/src/netlist.cpp:316-347 | a successful load appends one circuit per `.SUBCKT` line |
| Loader.SubcktCount | NetlistViewer/src/netlist.cpp:316-320 | the number of `.SUBCKT` lines from a given line on, at most the lines left |
| Loader.LoadedCircuitsShape | NetlistViewer/src/netlist.cpp:341-346 | every loaded circuit has no name and a zero box, its devices are attached only to its nodes, and its E and G devices are blank |
| Loader.BlockShape | NetlistViewer/src/netlist.cpp:341-346 | the copy of a parsed block has that shape |
| Loader.BlockCircuitShape | NetlistViewer/src/netlist.cpp:321-346 | the circuit a well-formed `.SUBCKT` block yields has the loaded shape |
| Loader.FilterLines | NetlistViewer/src/netlist.cpp:300-308 | the first loop keeps exactly the preprocessed lines |
| Loader.FindEndsLine | NetlistViewer/src/netlist.cpp:323-339 | finds the first later `.ENDS` line, or reports that there is none |
| Loader.LoadBlock | NetlistViewer/src/netlist.cpp:319-347 | the outcome is the block check, and on success the copy of the parsed circuit |
| Loader.ParseBlock | NetlistViewer/src/netlist.cpp:342-346 | parses the block into a fresh circuit and returns its copy |
| Loader.Load | NetlistViewer/src/netlist.cpp:298-348 | the load of the text lines, as the model load defines it |
| Loader.LoadLine | NetlistViewer/src/netlist.cpp:316-347 | one pass of the outer loop |
| Trunk.CopySubckt | trunk/NetlistViewer/src/netlist.h:200-206 | the copy keeps the name and the nodes, and holds one clone of each device, in order |
| Trunk.Subckt.constructor | trunk/NetlistViewer/src/netlist.h:197-198 | a new subcircuit has the given name and is otherwise empty |
| Trunk.Subckt.Copy | trunk/NetlistViewer/src/netlist.h:200-206 | the copy constructor holds the copy value, with no release first |
| Trunk.Subckt.AddNodes | trunk/NetlistViewer/src/netlist.cpp:245-251 | adds every token to the node set |
| Trunk.Subckt.AddDevice | trunk/NetlistViewer/src/netlist.h:221-222 | appends the device |
| Trunk.Subckt.ParseLine | trunk/NetlistViewer/src/netlist.cpp:217-263 | one loop pass with the shared line rules |
| Trunk.Subckt.BuildGraph | trunk/NetlistViewer/src/netlist.cpp:341-381 | the graph is the same model graph as in the newer copy |
| Trunk.Subckt.HeuristicPositions | trunk/NetlistViewer/src/netlist.cpp:404-435 | the local position vector is the heuristic layout |
| Trunk.Subckt.DrawLayout | trunk/NetlistViewer/src/netlist.cpp:404-444 | the positions are the heuristic layout, and the offset is the older draw offset of those positions |
| Trunk.GridOffset | trunk/NetlistViewer/src/netlist.cpp:437-444 | (2,2) minus the minimum of 0 and the position columns, and of 0 and the rows |
| Trunk.LoadSubCkt | trunk/NetlistViewer/src/netlist.cpp:211-267 | parses onto the given subcircuit without clearing it; the name is kept and the nodes and devices accumulate |
| Trunk.ParseOnto | trunk/NetlistViewer/src/netlist.cpp:211-267 | parsing onto a state equals parsing alone and then joining that state in front |
| Trunk.Unnamed | trunk/NetlistViewer/src/netlist.h:190-194 | a subcircuit seen as a nameless circuit with a zero box |
| Trunk.TrunkLoadAgrees | trunk/NetlistViewer/src/netlist.cpp:304-336 | the older load has the same outcome and the same nodes and devices as the newer one; only the names differ |
| Trunk.TrunkLoadFrom | trunk/NetlistViewer/src/netlist.cpp:304-336 | the older outer loop from line i: at most one subcircuit is pushed per remaining line |
| Trunk.TrunkKeepsEarlier | trunk/NetlistViewer/src/netlist.cpp:334 | what was in the output array stays in front |
| Trunk.TrunkLoadNames | trunk/NetlistViewer/src/netlist.cpp:307-334 | every appended subcircuit carries the name of a `.SUBCKT` line |
| Trunk.NamedStep | trunk/NetlistViewer/src/netlist.cpp:307-334 | one more subcircuit named after a `.SUBCKT` line keeps every appended name a `.SUBCKT` name |
| Trunk.UnnamedAll | trunk/NetlistViewer/src/netlist.h:190-194 | each subcircuit seen as a nameless circuit, in order |
| Trunk.Load | trunk/NetlistViewer/src/netlist.cpp:269-339 | the older load of the text lines, as the model defines it |
| Trunk.LoadLine | trunk/NetlistViewer/src/netlist.cpp:304-335 | one pass of the outer loop |
| Trunk.LoadBlock | trunk/NetlistViewer/src/netlist.cpp:307-334 | the outcome is the block check, and on success the copy of the named, parsed subcircuit |

## Left out

- File reading and line splitting in `load`. `load` takes the file's lines
  as a sequence of strings.
- `atof`, `pow` and `double`. A value is its mantissa text and an integer
  power of ten. The self-tests compare doubles within 1e-9; the model
  compares the mantissa and the power exactly.
- Every `draw` body, `initGraphics`/`releaseGraphics`, the GUI, the boost
  archive import and export, `eng.c` and `buildSchematic`. They do rendering,
  I/O or nothing.
- The Kamada-Kawai branch. It builds the graph and discards it, so the model
  moves nothing there.
- `svExternalPin` and anything else from `devices.h`. That header is not
  part of this model. The pin's identifier, shape, property verdict and
  clone behaviour are parameters (`PinTraits`), not invented values.
- `wxLogError` messages, reported line numbers, `wxASSERT` and
  `wxLogDebug`. Only the boolean outcomes are modelled. A failed
  `wxASSERT` is modelled as a precondition:
  - `addNode` past `getNodesCount()`;
  - ground not being the smallest node, or a device node missing from the
    node set, in `buildGraph`.
- `getHumanReadableDesc` and `getRotationPredisposition`. They are
  description and rendering hints.
- Ownership, `delete` and leaks. The classes own their devices as distinct
  objects, but deallocation is not modelled.
- The transistor's `m_bNChannel`. It is never set after construction, and
  the model only carries it along.
- Integer widths. Grid coordinates, `unsigned int` widths and
  `INT_MAX-1` are unbounded integers, with `INT_MAX-1` as a constant. The
  built-in tables never give a negative width, so the `unsigned`
  subtraction in the non-overlapped loop does not wrap.
- SpiceValue.Atoi, SpiceValue.AtoiOfIntText, SpiceValue.ExponentRoundTrip:
  `atoi` is modelled on unbounded integers. C leaves `atoi` undefined when
  the exponent text is outside the 32-bit `int` range, as in
  `1E99999999999`. So the round trip to power n is promised for every
  integer n, while the source behaves as stated only for n in
  [-2^31, 2^31).
- SpiceValue.Upper, SpiceValue.UpperChar: case folding is ASCII only, as
  `toupper` does in the "C" locale. The model takes a string as one element
  per character, so the byte (UTF-8) view that `toupper` sees in
  `getValue` is not modelled. `wxString::Upper` in the property parsers
  follows the process's character locale (only `LC_NUMERIC` is fixed) and
  can map non-ASCII letters, for instance the dotless `ı` to `I`. The model
  maps no such letter, so a token like `ıc=5` that the program could take
  for `IC=` is not taken for it in the model.
- `std::set` order is modelled as lexicographic order by character code,
  which matches `std::string::operator<` for `char` values.
- The older header keeps a second, non-passive `svDiode` inside a comment.
  Only the passive diode is declared, and the model uses it, as in the
  newer copy.
- The devices of the older copy share the newer `Device` class. Its
  position field is unused there, because the older placement keeps
  positions in a local vector.
- Circuits.Circuit.PlaceDevices: requires, for the heuristic, that device 0
  holds every node the loop reads. The source indexes device 0's node
  vector unchecked, so this is the source's own precondition.
- Trunk.Subckt.DrawLayout: requires at least one device, because the source
  indexes `m_devices[0]` unchecked.
