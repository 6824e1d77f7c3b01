# Olympic calendar distiller, modelled in Dafny

`distiller.py` downloads the public Google calendar of the Tokyo 2020
Olympic events, parses it with the `icalendar` library and writes smaller
calendars: one per sport, a merged one for a chosen set of sports, and debug
dumps in JSON. Along the way it cleans every event title: the medal glyphs
(gold, silver, bronze) are cut out of the title, appended after the sport
name and copied in front of the description, and the events are grouped by
the sport name that remains.

This project models the part of the script that transforms data, and proves
what that transformation guarantees:

- `strings.dfy` (module `Strings`): Python's `str.split()`, `str.strip()`,
  `" ".join` and `"".join`, with Python's exact set of whitespace characters.
- `titles.dfy` (module `Titles`): the title tokenizer. `Tokenize` is the
  script's loop; `SportOf` and `MedalsOf` say what it computes. The medal
  prefixes are the code points of the literals in the script (the UTF-8
  bytes of the medal emoji read as cp1252 text).
- `calendar.dfy` (modules `Wrappers`, `Calendar`): calendar components as
  values (a kind, a property dictionary, nested components) and icalendar's
  pre-order `walk()`.
- `classifier.dfy` (module `Classifier`): the pass over the walked
  components that rewrites each event's summary and description and groups
  the events by sport name in a dictionary whose keys keep insertion order,
  while every other component becomes a header.
- `projection.dfy` (module `Projection`): `ComposeCleanObject` and
  `ComposeCleanListOfObject`, the projection of components to JSON-ready
  values.
- `ordering.dfy` (module `Ordering`): Python's string order and `sorted()`,
  used to list the category names.
- `driver.dfy` (module `Driver`): the main body after the pass: the default
  output format, the printed category listing, `dump.ical`, `all.ical` and
  `all.json`, header sterilisation, the per-sport `.json` and `.ical` files
  and the merged files. Every file write is recorded, in order, as a (file
  name, content) pair; `Distill` runs the whole script and `Pipeline` says
  what it produces.

The script's in-place updates (the rewritten events, the dictionary of
lists, the cleared headers, the merged accumulators) are modelled as loops in
methods that build new values, each method proved equal to a function that
states the result, with lemmas about those functions (for the output files:
`FullFiles`, `SingleFiles`, `EmitFiles` and `MergedFiles`).

A run can end in five ways, all modelled: normally; with the usage message
when no argument is given; with exit status -1 when the download fails; by
raising when the feed cannot be parsed; or by raising in the middle of the
run. The script raises when an event has no text SUMMARY or DESCRIPTION
(`split` on `None`, a missing key, or a `str` added to a date or an
integer), and when a calendar or an event being projected lacks one of the
listed properties (`KeyError`). Files written before the exception stay
written; `all.json` is opened before its contents are computed, so a failure
there leaves an empty file.

With no sport requested, the sports are written in sorted name order
(distiller.py:159, 190-191), not in the order the categories were
discovered; the medal tokens of a title are concatenated with no separator
(distiller.py:68).

## Model

| member | source | states |
|---|---|---|
| `Strings.WordLen` | distiller.py:66 | the first token of a string runs up to, and not including, the first whitespace character |
| `Strings.Words` | distiller.py:66 | `str.split()` yields non-empty tokens without whitespace |
| `Strings.TrimStart` | distiller.py:72 | left strip removes exactly the leading whitespace and keeps a suffix |
| `Strings.TrimEnd` | distiller.py:72 | right strip removes exactly the trailing whitespace and keeps a prefix |
| `Strings.Strip` | distiller.py:72 | `strip()` leaves no whitespace at either end |
| `Strings.StripOfTrimmed` | distiller.py:70-72 | stripping a trimmed string, with or without one trailing space, gives it back |
| `Strings.WordLenStopsAtSpace` | distiller.py:66 | a token never extends past a whitespace character |
| `Strings.WordsAroundSpace` | distiller.py:66 | splitting at a whitespace character splits the two sides independently |
| `Strings.WordsOfWord` | distiller.py:66 | a single token splits into itself |
| `Strings.WordsOfJoin` | distiller.py:66-72 | round trip: splitting tokens joined by single spaces gives the tokens back |
| `Strings.JoinTrimmed` | distiller.py:70-72 | tokens joined by spaces have no outer whitespace and are empty exactly when there are no tokens |
| `Strings.SpacedIsJoinPlusSpace` | distiller.py:70 | appending each token followed by a space builds the space-joined tokens plus one trailing space |
| `Strings.ConcatOfWords` | distiller.py:68 | concatenated tokens contain no whitespace and are empty exactly when there are no tokens |
| `Titles.IsMedal` | distiller.py:67 | a medal token is at least four characters long, starts with the three characters shared by the three medal prefixes, and so never with whitespace |
| `Titles.Pick` | distiller.py:66-70 | selecting the medal (or non-medal) tokens keeps only tokens of that kind, drawn from the input |
| `Titles.Tokenize` | distiller.py:62-72 | the loop returns the sport name `SportOf(title)` and the medals `MedalsOf(title)` |
| `Titles.PickSnoc` | distiller.py:66-70 | one more token extends exactly one of the two selections and the matching accumulator |
| `Titles.AccumulateStep` | distiller.py:66-70 | one loop iteration appends a medal token to the medals, or another token and a space to the sport name |
| `Titles.StripAccumulators` | distiller.py:72 | the final strips turn the accumulators into the space-joined sport tokens and the concatenated medals |
| `Titles.PickAppend` | distiller.py:66-70 | selecting from a concatenation concatenates the selections |
| `Titles.PickUniform` | distiller.py:66-70 | tokens all of one kind are selected entirely, and none of them for the other kind |
| `Titles.PickNonEmpty` | distiller.py:66-70 | a selection is non-empty exactly when some token is of that kind |
| `Titles.SportNameTokens` | distiller.py:62-72 | the sport name splits into exactly the non-medal tokens in order, is stripped, and is empty exactly when every token is a medal |
| `Titles.MedalsShape` | distiller.py:66-72 | the medals have no whitespace, are empty exactly when no token starts with a medal prefix, and otherwise start with a medal prefix |
| `Titles.ConcatOfMedals` | distiller.py:67-68 | medal tokens concatenated still start with a medal prefix |
| `Titles.ResplitMedals` | distiller.py:66-68 | the concatenated medals split again into one medal token and no sport token |
| `Titles.PickSingleMedal` | distiller.py:66-68 | a single medal token is kept whole as the medals |
| `Titles.RejoinSplits` | distiller.py:62-72 | tokenizing `sport name + " " + medals` separates the same sport tokens and medals |
| `Titles.RetokenizeStable` | distiller.py:147-150 | tokenizing a rewritten summary gives back the same sport name and medals |
| `Calendar.Walk` | distiller.py:144 | the walk starts with the component itself |
| `Calendar.FreshCalendar` | distiller.py:224-228 | `Calendar()` followed by add_component: a calendar (not an event) with no properties whose subcomponents are the given components, in order |
| `Classifier.Buckets` | distiller.py:151-154 | the dictionary has a list for exactly the given keys |
| `Classifier.Classify` | distiller.py:142-156 | the pass returns the headers and the ordered dictionary of buckets of `Classification(walk)`, or fails exactly when some event is not rewritable |
| `Classifier.EventStep` | distiller.py:145-154 | an event adds its name to the key order if new and its rewritten form to the end of its bucket only |
| `Classifier.HeaderStep` | distiller.py:155-156 | any other component is appended to the headers and leaves the buckets alone |
| `Classifier.BucketOutsideOrder` | distiller.py:151-152 | a name that is not yet a key has no events |
| `Classifier.Retitle` | distiller.py:149-150 | the rewritten event keeps its kind, its subcomponents and its property names, and can be rewritten again |
| `Classifier.RetitleEffect` | distiller.py:147-150 | the summary becomes `name + " " + medals`, the description `medals + " " + description`; nothing else in the event changes and its category is kept |
| `Classifier.RetitleTwice` | distiller.py:147-150 | a second rewrite keeps the summary but puts the medals in front of the description again |
| `Classifier.OrderNames` | distiller.py:151-152 | a key exists exactly when some event has that sport name |
| `Classifier.OrderDistinct` | distiller.py:151-152 | no sport name is a key twice |
| `Classifier.ClassificationValid` | distiller.py:144-156 | a successful pass yields distinct keys, one bucket per key, and a key for every event |
| `Classifier.HeadersAndEvents` | distiller.py:144-156 | every walked component is a header or an event, never both, and headers are non-events of the walk |
| `Classifier.WithSport` | distiller.py:151-154 | the events of a list whose sport name is k, in their order; `WithSportCounts` and `WithSportMembers` state which events and how often |
| `Classifier.EventsRetitlable` | distiller.py:147-154 | every rewritten event is an event that can be rewritten again |
| `Classifier.WithSportSnoc` | distiller.py:154 | one more event extends only its own sport's selection |
| `Classifier.BucketIsFilter` | distiller.py:144-156 | a bucket is exactly the rewritten events whose sport name is its key, in walk order |
| `Classifier.TotalSizeStep` | distiller.py:151-154 | one event adds one to the total size of the buckets of distinct keys containing its name |
| `Classifier.LastKey` | distiller.py:151-154 | among distinct keys, only the last key's bucket can grow for an event of that name, and that key occurs once |
| `Classifier.TotalSizeHeader` | distiller.py:155-156 | a header adds nothing to the buckets |
| `Classifier.BucketSizes` | distiller.py:144-156 | the bucket lengths sum to the number of events |
| `Classifier.EventInItsBucket` | distiller.py:144-156 | each event, rewritten, is in the bucket of its sport name, and a bucket holds only rewritten events of that name |
| `Classifier.BucketMember` | distiller.py:151-154 | each rewritten event is in the bucket of its sport name |
| `Classifier.WithSportMembers` | distiller.py:151-154 | the events selected for a sport all have that sport name and come from the list |
| `Classifier.WithSportCounts` | distiller.py:151-154 | each event of the list is selected for k exactly as often as the list holds it when its sport name is k, and never otherwise; nothing outside the list is selected |
| `Classifier.ByKeysCounts` | distiller.py:103-106 | grouping by distinct keys holds each event whose sport name is a key as often as the list does, and no other event |
| `Classifier.EventsNamed` | distiller.py:144-154 | every rewritten event of the walk has its sport name among the dictionary's keys |
| `Classifier.ByKeysKeepsAll` | distiller.py:103-106 | grouping by distinct keys that name every event is a permutation of the events |
| `Classifier.GroupingKeepsEvents` | distiller.py:144-156 | the dictionary's lists taken in key order hold every event of the walk exactly once |
| `Projection.CleanValue` | distiller.py:87-92 | a property value becomes a scalar: an integer exactly for integers, the date's text for dates, the text otherwise |
| `Projection.Members` | distiller.py:81-86 | the listed properties appear in list order, each with its cleaned value |
| `Projection.ComposeCleanObject` | distiller.py:77-95 | the loop over the listed keys produces `CleanComponent(c)`, failing exactly where a key is missing |
| `Projection.Names` | distiller.py:94-95 | the member names of an object, in insertion order |
| `Projection.ProjectShape` | distiller.py:77-95 | projection fails exactly when a listed key is missing; otherwise the keys are the listed ones in order then `type` |
| `Projection.CleanShape` | distiller.py:74-95 | a calendar keeps exactly its 6 properties plus `type`, an event its 12 plus `type`, any other component becomes its string form and never fails |
| `Projection.CleanAllSnoc` | distiller.py:99-100 | cleaning one more component appends its object or fails |
| `Projection.CleanAllElements` | distiller.py:97-110 | a cleaned list succeeds exactly when each element does, and holds each element's object in order |
| `Projection.CleanAllAppend` | distiller.py:97-110 | cleaning a concatenation concatenates the cleaned parts |
| `Projection.AppendClean` | distiller.py:99-109 | the append loop extends the cleaned objects by the cleaned components |
| `Projection.PrefixStep` | distiller.py:99-109 | cleaning one more element extends the cleaned prefix, and a failure there fails the whole list |
| `Projection.ComposeCleanListOfObject` | distiller.py:97-110 | the result is the cleaned headers followed by the cleaned objects, a dictionary flattened list by list in key order |
| `Projection.ChainStep` | distiller.py:104-106 | flattening one more key appends that key's list |
| `Projection.ChainPrefix` | distiller.py:104-106 | flattening the first keys gives a prefix of flattening all keys |
| `Projection.ChainFailure` | distiller.py:104-106 | a failure while cleaning one list of the dictionary fails the whole flattened list |
| `Ordering.Reflexive` | distiller.py:159 | every string is ordered with itself |
| `Ordering.Total` | distiller.py:159 | any two strings are ordered one way or the other |
| `Ordering.Antisymmetric` | distiller.py:159 | strings ordered both ways are equal |
| `Ordering.Transitive` | distiller.py:159 | the string order is transitive |
| `Ordering.Insert` | distiller.py:159 | inserting into a sorted list keeps it sorted and adds exactly the new name |
| `Ordering.InsertFront` | distiller.py:159 | a name not after the first of a sorted list can go in front |
| `Ordering.InsertBehind` | distiller.py:159 | a sorted list whose names are all not before the head can follow it |
| `Ordering.Sort` | distiller.py:159 | `sorted()` is sorted and a permutation of its input |
| `Ordering.SortedUnique` | distiller.py:159 | two sorted permutations of the same names are the same list |
| `Ordering.SameFirst` | distiller.py:159 | sorted permutations of the same names start alike |
| `Ordering.DropFirst` | distiller.py:159 | dropping the head of a sorted list keeps it sorted and removes one occurrence |
| `Driver.WithDefaultFormat` | distiller.py:132-134 | at least one format is chosen; ical is chosen exactly when requested or when json is not; nothing else changes |
| `Driver.IsAlnum` | distiller.py:206 | an alphanumeric character is never whitespace, a dot or a path separator, so a file name stays in the working directory |
| `Driver.Filename` | distiller.py:206 | the file name is all alphanumeric and no longer than the name |
| `Driver.FilenameCounts` | distiller.py:206 | the file name keeps every alphanumeric character as often as the name has it |
| `Driver.FilenameSnoc` | distiller.py:206 | one more character is kept exactly when it is alphanumeric |
| `Driver.FilenameAppend` | distiller.py:206 | filtering a concatenation concatenates the filtered parts, so the order of characters is kept |
| `Driver.FilenameOfAlnum` | distiller.py:206 | a name made only of alphanumeric characters is its own file name |
| `Driver.FilenameIdempotent` | distiller.py:206 | filtering a file name again changes nothing |
| `Driver.Sterile` | distiller.py:186-187 | every header has no subcomponents and keeps its kind and properties |
| `Driver.Sterilize` | distiller.py:186-187 | the clearing loop produces `Sterile(headers)` |
| `Driver.Selection` | distiller.py:190-194 | the requested names when some are given, otherwise the category names sorted |
| `Driver.EmitSelection` | distiller.py:205-231 | the loop over the requested sports produces `Emit` of them, stopping where the script raises |
| `Driver.EmitOne` | distiller.py:206-229 | one iteration of the sports loop produces `Step` for that name |
| `Driver.EmitCrashed` | distiller.py:205-231 | after an exception nothing more is written |
| `Driver.EmitAppend` | distiller.py:205-231 | processing two lists of names is processing the first, then the second |
| `Driver.UnknownNameSkipped` | distiller.py:207-231 | an unknown name produces nothing and the names after it are processed as if it were absent |
| `Driver.StepMerged` | distiller.py:207-220 | a found sport adds its events to the merged calendar and its cleaned block to the merged JSON, each only with --merge and the matching format |
| `Driver.MergedIcal` | distiller.py:217-220 | the merged calendar gains the events of each found sport in request order |
| `Driver.MergedJson` | distiller.py:209-216 | the merged JSON gains, per found sport, the cleaned headers followed by its cleaned events |
| `Driver.BlocksStep` | distiller.py:209-216 | one more found sport appends its cleaned headers-then-events block to the cleaned blocks |
| `Driver.StepWrites` | distiller.py:206-229 | a sport only appends files named after it, and only with --single |
| `Driver.SportFiles` | distiller.py:205-231 | the per-sport files are named after found requested sports, are never the raw feed, and none is written without --single |
| `Driver.StepFiles` | distiller.py:207-229 | one sport that does not raise appends exactly its own files: the JSON list then the calendar, only with --single |
| `Driver.EmitFiles` | distiller.py:205-231 | without an exception, the loop writes exactly the per-sport files of the found sports in request order, and each found sport's headers and events can be cleaned under --json |
| `Driver.SingleFiles` | distiller.py:205-229 | with --single and no exception, every found requested sport gets `<name>.json` with its cleaned headers then events (under --json) and `<name>.ical` with a calendar of the headers then its events (under --ical) |
| `Driver.RetitleTree` | distiller.py:174-179 | the calendar written to all.ical keeps every component's kind and number of children, with each event's properties rewritten |
| `Driver.RetitleAll` | distiller.py:174-179 | rewriting a list of components keeps its length |
| `Driver.WriteFull` | distiller.py:166-184 | the method writes dump.ical, all.ical and all.json as `Prelude` says; `FullFiles` states what those files hold |
| `Driver.WriteOutputs` | distiller.py:166-242 | the output phase writes the files of `Outputs`, and ends raised exactly when it does |
| `Driver.WriteSelection` | distiller.py:196-242 | merge seeding, the sports loop and the merged files produce `Finish` of `Emit` from `Seed` |
| `Driver.Distill` | distiller.py:132-242 | a whole run prints the listing and writes the files of `Pipeline`, ending as it says |
| `Driver.MergedFiles` | distiller.py:196-242 | merged.ical holds the sterilised headers and then the found sports' events in request order; merged.json the cleaned headers and then one headers-then-events block per found sport |
| `Driver.ChainOfBuckets` | distiller.py:103-106 | the dictionary's lists in key order are the events of the walk grouped by sport name |
| `Driver.OutputsExtendPrelude` | distiller.py:166-242 | the later files come after dump.ical, all.ical and all.json, are never the raw feed, and nothing follows an all.json that raised |
| `Driver.DumpFirst` | distiller.py:166-169 | dump.ical holding the fetched bytes is the first file written exactly when --dump is given |
| `Driver.AllFiles` | distiller.py:174-184 | all.ical holds the rewritten calendar; all.json holds the cleaned headers and lists, or stays empty and ends the run when cleaning raises |
| `Driver.FullFiles` | distiller.py:166-184 | with --dump the raw feed is the first file and only then; with --all, all.ical holds the calendar with every event rewritten and all.json the cleaned headers followed by every event exactly once, grouped by sport in key order, or is left empty when cleaning raises |

## Left out

- The download (`getUrlAsString`, distiller.py:54-60) is a parameter: the fetched bytes, or nothing when it failed.
- `Calendar.from_ical` is a parameter (a parser that may fail); `to_ical` is not modelled: a written calendar is recorded as the component value it serialises.
- `run` (distiller.py:44-52) is never called and is not modelled.
- Argument parsing (distiller.py:117-130) is replaced by an `Options` value; `argCount` stands for `len(sys.argv) - 1`. The `DEBUG` branch is dead code and is not modelled.
- All printing, including the listing's JSON formatting and the "all.json" message printed while writing all.ical, is left out; the printed listing is kept as a list of names.
- `json.dump` formatting, the text of `str(obj.dt)` and the string form of components other than calendars and events are not modelled: a date carries its rendered text and such a component stands for its own string form.
- Python's class dispatch on `type(obj)` is modelled by the component's kind (`VCALENDAR` for `Calendar`, `VEVENT` for `Event`); property values other than dates and integers, including repeated properties, are modelled as their text.
- Driver.Filename: characters above U+00FF are treated as not alphanumeric; Python's `str.isalnum` also keeps letters and digits of other scripts.
- Components are values, so a component reachable from two places is two copies: a header cleared by sterilisation is not also cleared inside an event that contains it, and the string form of a non-calendar header in all.json shows the events nested in it as parsed rather than rewritten. The calendar written to all.ical is the exception: it is modelled with every event rewritten, as the in-place updates leave it.
- Exit status codes are reduced to the `Outcome` of a run.
