# Audio labelling viewer — a Dafny model

The repository holds two nearly identical browser scripts, `script.js` and
`website/script.js`. Each one loads a JSON array of annotated media records.
It then shows one record at a time: a media player chosen by the file
extension, next to the record's labels. A "Next" button steps round the
list. This project models the logic of those scripts as pure functions over
immutable data and proves properties of them. The DOM, the network and the
browser are left out.

Modules (each one is defined once and used by both scripts):

- `Media` (`media.dfy`) is `createMediaPlayer`. It takes the extension as
  `path.split('.').pop().toLowerCase()`, sorts it with the two fixed tables
  (`mp4`/`mov`/`webm` for video, `mp3`/`wav`/`ogg` for audio), and builds
  the player and its `<kind>/<ext>` source type.
- `RecordQueue` (`queue.dfy`) is the state `(labels, currentIndex)` and the
  step `(index + 1) % n`.
- `Labels` (`labels.dfy`) is `renderLabels`, used by `script.js` only. It
  gives the layout of a record as sections and items, not as markup.
- `Json` (`json.dfy`) holds the parsed values. It also models the
  `for (k in v)` enumeration and the `record.file_path` lookup.
- `Strings` (`strings.dfy`) has the case mapping, the first-occurrence
  `replace`, and the decimal index keys.
- `Wrappers` (`wrappers.dfy`) is a small `Option` type.
- `Viewer` (`viewer.dfy`) is the page session: `fetchLabels`,
  `displayCurrentItem` and `handleNext`. It is generic in the label view,
  and each script passes in its own label layout.
- `ScriptPage` and `WebsitePage` (`pages.dfy`) plug a layout into `Viewer`.
  `script.js` uses `renderLabels`. `website/script.js` uses
  `JSON.stringify`, which is a parameter `serialise` here.

Behaviours of the code that the model keeps:

- A record whose `file_path` is not a string makes `displayCurrentItem`
  throw.
  - For a `null` record the throw comes before the media region is touched.
  - For any other record, `createMediaPlayer` has already cleared the media
    region.
  - Inside `fetchLabels` the throw is caught, and the label region shows the
    error text. The records stay loaded and "Next" stays disabled.
  - Inside `handleNext` nothing catches it. The position has already moved,
    so the label region keeps showing the previous record's labels.
- `fetchLabels` never resets the position. The loaded list is shown from
  index 0 only because loading happens once, from the initial state.
- `key.replace('_', ' ')` replaces only the first underscore.
- `for (k in v)` over an array element walks its indices. Over a string
  element it walks the string one position at a time; the model takes a
  position to be a character, which agrees with JavaScript's UTF-16 code
  units for characters of the Basic Multilingual Plane.
- `null` is laid out as a plain line, not as a nested object.
- `renderLabels` throws, before it writes the label region, in two cases.
  - The record has its own `hasOwnProperty` key, so the check on the first
    key calls a plain value.
  - A value interpolated as text is an object with its own `toString` key,
    or an array holding one; its conversion to text fails.
  In `fetchLabels` the error is caught and reported. In `handleNext` the
  player is already shown and the old labels stay. `JSON.stringify` never
  throws on a parsed value.
- A parsed object has distinct keys, because `JSON.parse` keeps the last of
  repeated keys. `Json.FirstWith` and `Json.LookupFirst` also cover lists
  with repeated keys, which the scripts never receive.

## Model

| member | source | states |
|---|---|---|
| `Media.Split` | script.js:37 | `split('.')` yields at least one piece, no piece holds the separator, and joining the pieces with it gives back the path |
| `Media.SplitJoin` | script.js:37 | splitting is the inverse of joining: the join of separator-free pieces splits back into exactly those pieces |
| `Media.LastPiece` | script.js:37 | `split(sep).pop()` is the longest suffix without the separator: the whole string if there is none, otherwise exactly what follows the last one |
| `Media.Extension` | script.js:37 | the extension is the lower-cased longest dot-free suffix of the path, no longer than the path |
| `Media.ExtensionIsTextAfterLastDot` | script.js:37 | the extension is `Lower(e)` for the one `e` that is the text after the last dot (or the whole path), in both directions |
| `Media.ExtensionWithoutDot` | script.js:37 | a path without a dot is its own extension, lower-cased |
| `Media.ExtensionAfterTrailingDot` | script.js:37 | a trailing dot gives the empty extension |
| `Media.ExtensionIgnoresEarlierDots` | script.js:37 | dots in directory names do not matter: `dir + "." + name` has extension `Lower(name)` when `name` has no dot |
| `Media.ExtensionOfLower` | script.js:37 | lower-casing the path first leaves the extension unchanged |
| `Media.Classify` | script.js:40-51 | video exactly for `mp4`/`mov`/`webm`, audio exactly for `mp3`/`wav`/`ogg`, nothing for every other extension, the empty one included |
| `Media.CreateMediaPlayer` | script.js:34-62 | a player exactly when the extension is in one of the tables (video kind exactly for the video table); it always has controls, its source is the path, and its type is `video/<ext>` or `audio/<ext>`; otherwise the unsupported message names the extension (the same code is at website/script.js:34-62) |
| `Media.CreateMediaPlayerIgnoresCase` | website/script.js:37-51 | two paths that agree after lower-casing get the same kind and source type, or the same unsupported message |
| `Media.SourceTypesAreFixed` | script.js:57 | only six source types can be produced |
| `Media.TrailingDotUnsupported` | script.js:48-51 | a path ending in a dot is refused with an empty extension |
| `Media.Mp4IsVideo` | script.js:40-43 | any path ending in `.mp4` gets a video player with controls and type `video/mp4` |
| `Media.UpperMp3IsAudio` | script.js:44-47 | any path ending in `.MP3` gets an audio player of type `audio/mp3` |
| `Media.XyzIsUnsupported` | script.js:48-51 | any path ending in `.xyz` is refused, naming `xyz` |
| `Media.DotInDirectoryOnly` | website/script.js:37-51 | when the last dot sits in a directory name, the rest of the path is taken as the extension and refused |
| `RecordQueue.Advance` | script.js:142 | with `n > 0` the step keeps the record list, lands in `[0, n)`, moves to the next index, and wraps from the last to 0 |
| `RecordQueue.AdvanceBy` | script.js:140-144 | repeated steps never change the record list and leave the position in bounds |
| `RecordQueue.AdvanceByIndex` | script.js:142 | after `k` steps the position is `(index + k) mod n` |
| `RecordQueue.FullCycle` | website/script.js:95 | `n` steps return the queue to where it started |
| `RecordQueue.AdvanceByAdd` | website/script.js:93-97 | `a` presses followed by `b` more are the same as `a + b` presses |
| `RecordQueue.AdvanceByBelow` | script.js:142 | before the end of the list, `k` presses move the position exactly `k` places on |
| `RecordQueue.EveryRecordReached` | website/script.js:93-97 | every record is reached from any start within `n` steps |
| `Json.Enumerate` | script.js:79 | `for..in` walks an object's own properties in order, an array's elements and a string's characters (one per UTF-16 code unit for Basic Multilingual Plane text) under their decimal indices, and nothing for a primitive |
| `Json.EnumeratedKeysDistinct` | script.js:89 | `for..in` visits each key once: array and string indices give distinct keys, and so do parsed objects |
| `Json.Lookup` | script.js:126 | property access finds a value exactly when the key is present, and the value found belongs to that key |
| `Json.FirstWith` | script.js:126 | for a present key, a position holding it with no earlier property of that key |
| `Json.LookupFirst` | script.js:126 | property access on a present key yields the value at the key's first position |
| `Json.LookupFindsFirst` | script.js:126 | conversely, a property with no earlier property of the same key is the one found |
| `Json.LookupDistinct` | script.js:126 | in a parsed object, whose keys are distinct, property access yields `v` exactly when the object pairs the key with `v` |
| `Json.FilePath` | script.js:126 | a path exists only for an object whose `file_path` is a string, and it is that string |
| `Strings.ReplaceFirst` | script.js:85 | `replace` with a one-character pattern changes exactly the first occurrence and nothing else |
| `Strings.NatToDecimal` | script.js:89 | the index keys that `for..in` yields are non-empty, all digits, and read back as their index |
| `Strings.Lower` | script.js:37 | an ASCII-only stand-in for `toLowerCase`: the same length, each `A`-`Z` mapped to its lower-case letter and every other character kept |
| `Strings.Upper` | script.js:85 | an ASCII-only stand-in for `toUpperCase`: the same length, each `a`-`z` mapped to its upper-case letter and every other character kept |
| `Labels.DisplayKey` | script.js:105 | the key of a plain line has only its first `_` turned into a space, and is unchanged when it has none |
| `Labels.Heading` | script.js:85 | a section heading keeps the key's length, spaces its first underscore and upper-cases every character |
| `Labels.DisplayKeyReplacesFirstUnderscore` | script.js:105 | `a_b` shows as `a b` for any `b`, so `file_path` is `file path` and `a_b_c` is `a b_c` |
| `Labels.HeadingOfUnderscoredKey` | script.js:85 | a section heading is the display key upper-cased: `Upper(a) + " " + Upper(b)` for `a_b`, so `auto_transcript` is `AUTO TRANSCRIPT` and `a_b_c` is `A B_C` |
| `Labels.RenderEntry` | script.js:83-106 | each top-level property is laid out by its value: a section per array element listing that element's enumerated pairs, a section of the nested object's own pairs, or a single line under the display key. These are if-and-only-ifs |
| `Labels.RenderAll` | script.js:79-108 | the loop gives exactly one entry per property, in order |
| `Labels.Layout` | script.js:79-108 | the layout of a record has one entry per enumerated top-level key |
| `Labels.RenderFrom` | script.js:79-108 | the loop over the keys throws exactly when there is a key and either `hasOwnProperty` is shadowed or some entry throws, and otherwise yields one entry per key |
| `Labels.RenderLabels` | script.js:68-111 | `renderLabels` throws exactly when the record has its own `hasOwnProperty` key or some interpolated nested value has its own `toString` key; otherwise it gives the record's layout |
| `Labels.LayoutLaidOut` | script.js:79-106 | every entry of a record's layout is laid out from the property at the same position, as `RenderEntry` states |
| `Labels.RenderAllAppend` | script.js:79-108 | the entries for two property lists in a row are the entries for the first, then those for the second |
| `Labels.ShadowedRecordThrows` | script.js:80 | a record with its own `hasOwnProperty` key is never rendered |
| `Labels.NestedToStringThrows` | script.js:95-101 | a nested value with its own `toString` key makes the rendering throw |
| `Labels.PrimitivesRender` | script.js:103-106 | a record of primitive values that does not shadow `hasOwnProperty` always renders, to its layout |
| `Labels.NullIsALine` | script.js:95-106 | `null` is not treated as an object; it is a single line |
| `Labels.TranscriptExample` | script.js:83-94 | a record with a path and a one-segment transcript renders, without throwing, as one line and one section with one bullet of three items |
| `Viewer.Init` | script.js:3-4 | the page starts with no records, position 0, both regions untouched and "Next" disabled, and satisfies the session invariant |
| `Viewer.DisplayCurrentItem` | script.js:116-135 | an empty list shows both "no data" messages whatever the position, and reads no record. It completes exactly when the list is empty or the current record has a string path and its labels render, and then shows that record's player and labels and enables "Next". A throw leaves the labels and "Next" alone. The media region then holds the player if the path was a string, is cleared for any other non-null record, and is untouched for `null` or a position past the end |
| `Viewer.Load` | script.js:15-28 | a failed fetch changes only the label region, which then shows the error. A successful fetch replaces the list wholesale and keeps the position. The label region shows the error exactly when a non-empty list cannot be displayed, because the path is not a string or the labels throw |
| `Viewer.Start` | website/script.js:15-28 | from the fresh page: a failure leaves the list empty, the media region untouched and the error in the label region. A success holds the list at position 0 and shows the "no data" messages, or record 0, or the error with "Next" disabled when record 0 cannot be displayed; a string path always gets its player |
| `Viewer.Next` | script.js:140-144 | the queue takes exactly one `RecordQueue.Advance` step, so the list is kept and the position moves on one place, wrapping from the last record to the first. A record that can be displayed is shown in full; otherwise the label region keeps its old content, and a string path still gets its player |
| `Viewer.StartValid` | script.js:131-132 | after the load the position is in bounds and "Next" is enabled only when there are records |
| `Viewer.NextValid` | website/script.js:84-97 | an enabled "Next" has a record to go to, and pressing it keeps that invariant |
| `Viewer.NextBy` | website/script.js:93-97 | any number of presses keeps the record list and moves the queue exactly as that many steps do |
| `Viewer.FullCycleRestoresSession` | script.js:140-143 | `n` presses restore the position. When every record has a string path and renders, and the current one is on screen, they restore the whole session |
| `ScriptPage.Display` | script.js:116-135 | no data: both messages. A record with a string path: its player, and exactly its `renderLabels` layout with "Next" enabled unless `renderLabels` throws, when the labels and "Next" are left as they were. Otherwise a throw, with the labels unchanged |
| `ScriptPage.Start` | script.js:15-27 | a failure leaves the list empty and shows the error only in the label region. A success holds the list at position 0; an empty list shows both "no data" messages with "Next" disabled, and a string path in record 0 always gets its player. Record 0 with a string path shows its layout, one entry per key, and enables "Next"; if `renderLabels` throws, the player is shown, the caught error is reported and "Next" stays disabled |
| `ScriptPage.ShadowedFirstRecord` | script.js:15-28 | a first record `{"file_path": p, "hasOwnProperty": v}` shows its player, then the caught error, and leaves "Next" disabled |
| `ScriptPage.Next` | script.js:140-144 | the queue takes one step (list kept, position moved on one place with wrap-around); a new record with a string path has its layout shown, or the old labels kept when `renderLabels` throws |
| `WebsitePage.Display` | website/script.js:67-88 | no data: both messages. A displayable record: its player and the serialisation of exactly that record |
| `WebsitePage.Start` | website/script.js:15-27 | a failure leaves the list empty and shows the error in the label region. A success holds the list at position 0; an empty list shows both "no data" messages with "Next" disabled, and a record 0 with a string path gets its player, its serialisation and an enabled "Next" |
| `WebsitePage.Next` | website/script.js:93-97 | the queue takes one step (list kept, position moved on one place with wrap-around), and the label region is the serialisation of exactly the new current record |

## Left out

- The `fetch` call, `await`, and the HTTP status check are not modelled. A
  load is an input: either a record list or a failure message.
- A document that parses to something other than an array is not
  modelled.
- Building the DOM, `innerHTML`, CSS classes, `mediaElement.load()`,
  wiring up event listeners, and `console.log` are left out. Each one only
  shows which branch was taken, and the model records that branch.
- The text of `JSON.stringify(record, null, 2)` is not modelled. The
  library serialiser is not part of this model, so `WebsitePage` takes it
  as a parameter.
- The markup that `renderLabels` emits is left out. Values are kept as
  values. Their `${…}` interpolation into text, including the lack of
  escaping, is not modelled; only whether it throws is.
- JSON numbers are kept as their literal text, because the scripts never
  look at them.
- Object properties are taken to be in JavaScript enumeration order. The
  model does not re-sort integer-like keys.
- Viewer.Next: the model requires a non-empty list. On an empty list
  JavaScript computes `% 0` and sets the position to `NaN`, which the model
  does not represent. The page markup that would keep "Next" disabled
  before loading is not part of this model. The model starts with "Next"
  disabled, and `Viewer.NextValid` shows that an enabled "Next" always has
  records.
- RecordQueue.Advance: the same non-empty requirement applies, for the same
  reason.
- Json.Enumerate: a string is a sequence of characters, while JavaScript
  strings are UTF-16 code units. The two agree only for characters of the
  Basic Multilingual Plane. A character outside it (an emoji, say) is one
  position here but two surrogate positions to `for..in`, and a lone
  surrogate from the document cannot be represented at all.
- Strings.Lower: maps only ASCII letters. JavaScript's `toLowerCase` also
  maps other letters and can lengthen a string (`İ` becomes two
  characters).
- Strings.Upper: maps only ASCII letters. JavaScript's `toUpperCase` also
  maps other letters and can lengthen a string (`ß` becomes `SS`).
- Media.Extension: lower-casing is ASCII only, while JavaScript maps
  Unicode case. The classification is the same for every path. Only the
  extension text of a path with non-ASCII letters can differ.
- Labels.Heading: upper-casing is ASCII only, for the same reason. Unicode
  upper-casing can lengthen a key (`ß` becomes `SS`), and the model does
  not do that.
- The page's initial markup for the two regions is opaque. It appears as
  `MediaUntouched` and `LabelsUntouched`.
