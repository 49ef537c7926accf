# Bookfinder data loader — a Dafny model

The loader reads two line-delimited dump files, one of authors and one of
literary works. Every dump line carries a type prefix before a JSON object. The
loader cuts the line at its first `{`, parses the object with org.json, maps it
to an `Author` or a `Book`, and saves that entity in a repository keyed by id.
A work's author ids are looked up in the author repository to fill in the
author names, with `"NA"` for an id that is not there.

Each line has one of three outcomes, decided by the Java exception that
interrupts it, if any:

- **Save**: the entity is written. The repository overwrites any earlier entity with the same id.
- **Skip**: a `JSONException` is caught inside the line loop and the next line is read.
- **Abort**: any other exception escapes the line loop and ends the whole pass. This happens in two cases: `substring(-1)` on a line without `{`, and a `DateTimeParseException` from the `created` date.

Modules:

- `Wrappers`: `Option`, the `Exception` kinds, and a failure-compatible `Result`.
- `JavaStrings`: `indexOf`, `substring(begin)` and `replace(target, "")` (`RemoveAll`).
- `OrgJson`: the parsed JSON value and the accessors `opt`, `optString`, `getString`, `optJSONObject`, `optJSONArray`, `getJSONObject`, `JSONArray.getString` and `JSONArray.getJSONObject`. Each one defaults or throws the way org.json does. It also models `toString` of a stored value, which `optString` returns for a value that is not a string.
- `LocalDates`: `LocalDate.parse` with the pattern `yyyy-MM-dd'T'HH:mm:ss.SSSSSS` and the formatter's SMART resolver. The fields are checked against their ranges. A day past the month's end is clamped to the last day. `24:00:00.000000` rolls over to the next day.
- `Entities`: `Author`, `Book`, and the two repositories as classes holding a map.
- `Ingestion`: the generic meaning of one pass as a replay of per-line steps, with the last-write-wins and where-the-pass-stops lemmas.
- `DataLoader`: line extraction, the author mapper, and the work mapper. `MapWork` is an imperative method proved equal to the `Work` function. The `Loader` class has `InitAuthors`, `InitWorks` and `Start`, with the body of each per-line lambda as a method of its own.
- `LoaderProperties`: what the loader promises, stated over those functions.

The org.json text parser (`new JSONObject(text)`) is a parameter of type `string -> Option<JsonObject>`. `None` stands for the `JSONException` it throws. File reading is also replaced by parameters: the `Loader` is given the lines of each dump file.

Consequences of the code that are easy to miss:

- A line without `{` aborts the pass: `substring(-1)` throws `StringIndexOutOfBoundsException`, which the `JSONException` handler does not catch.
- An unparsable `created.value` aborts the pass: `DateTimeParseException` is not a `JSONException`.
- Without `covers` or `authors`, the lists `coverIds`, `authorIds` and `authorNames` stay unset (`None`).
- `description` is `"NA"` whenever `description` is not a JSON object, a plain string included.
- A `key` that is present but not a string skips the work line, because `getString` throws `JSONException`.
- `start()` runs only the works pass; the call to `initAuthors()` is commented out.

## Model

| member | source | states |
|---|---|---|
| `JavaStrings.IndexOf` | src/main/java/com/springboot/bookfinderdataloader/BookfinderDataLoaderApplication.java:57 | -1 exactly when the character is absent; otherwise the position of its first occurrence |
| `JavaStrings.SubstringSplits` | src/main/java/com/springboot/bookfinderdataloader/BookfinderDataLoaderApplication.java:57 | the dropped prefix and the kept suffix of `substring(begin)` make up the string, the suffix being `length - begin` long; a `begin` outside `0..length` throws `StringIndexOutOfBounds` |
| `DataLoader.ExtractJson` | src/main/java/com/springboot/bookfinderdataloader/BookfinderDataLoaderApplication.java:96 | succeeds exactly when the line has a `{`; the text is the suffix starting at the first `{`, and the dropped prefix has no `{`; otherwise the error is `StringIndexOutOfBounds` |
| `JavaStrings.RemoveAllAbsent` | src/main/java/com/springboot/bookfinderdataloader/BookfinderDataLoaderApplication.java:64 | `replace(t, "")` leaves a string that does not contain `t` unchanged |
| `JavaStrings.RemoveAllLeading` | src/main/java/com/springboot/bookfinderdataloader/BookfinderDataLoaderApplication.java:105 | an occurrence at the front is deleted and the scan resumes after it |
| `JavaStrings.StripNamespace` | src/main/java/com/springboot/bookfinderdataloader/BookfinderDataLoaderApplication.java:141 | `(t + s).replace(t, "")` is `s` when `s` does not contain `t` |
| `OrgJson.Opt` | src/main/java/com/springboot/bookfinderdataloader/BookfinderDataLoaderApplication.java:64 | none exactly when no member has the key; otherwise the value of a member with that key |
| `OrgJson.OptStringAgreesWithGetString` | src/main/java/com/springboot/bookfinderdataloader/BookfinderDataLoaderApplication.java:65 | where `getString` succeeds, `optString` gives the same string; for a number `getString` throws `JsonException` while `optString` gives the number's text |
| `OrgJson.AbsentOrNullHoldsNothing` | src/main/java/com/springboot/bookfinderdataloader/BookfinderDataLoaderApplication.java:109-118 | for a missing key or JSON null, `optJSONObject` and `optJSONArray` find nothing, `getJSONObject` and `getString` throw `JsonException`, and `optString` gives `""` |
| `OrgJson.ValueHasOneKind` | src/main/java/com/springboot/bookfinderdataloader/BookfinderDataLoaderApplication.java:105-122 | at most one of `optJSONObject`, `optJSONArray` and `getString` finds the value under a key |
| `OrgJson.ElementAccessorsMatchObject` | src/main/java/com/springboot/bookfinderdataloader/BookfinderDataLoaderApplication.java:128-140 | `JSONArray.getString(i)` and `getJSONObject(i)` give exactly what the object accessors give for the same value under a key; an index out of range throws `JsonException` |
| `LocalDates.ParseLocalDate` | src/main/java/com/springboot/bookfinderdataloader/BookfinderDataLoaderApplication.java:119 | a date only for text that fits the whole pattern, and then a valid calendar date; any failure is `DateTimeParseException` |
| `LocalDates.MatchFormat` | src/main/java/com/springboot/bookfinderdataloader/BookfinderDataLoaderApplication.java:90 | the pattern reads back every field value it printed, for values that fit their widths |
| `LocalDates.ParseTimestamp` | src/main/java/com/springboot/bookfinderdataloader/BookfinderDataLoaderApplication.java:88-90 | a well-formed timestamp of a real date and time of day parses to its date part |
| `LocalDates.ParseTimestampClampsDay` | src/main/java/com/springboot/bookfinderdataloader/BookfinderDataLoaderApplication.java:119 | a day up to 31 that is past the month's end gives the month's last day |
| `LocalDates.ParseTimestampEndOfDay` | src/main/java/com/springboot/bookfinderdataloader/BookfinderDataLoaderApplication.java:119 | the time 24:00:00.000000 gives the next day's date |
| `LocalDates.ParseTimestampRejectsMonth` | src/main/java/com/springboot/bookfinderdataloader/BookfinderDataLoaderApplication.java:119 | a month outside 1-12 raises `DateTimeParseException` |
| `Entities.AuthorRepository.Save` | src/main/java/com/springboot/bookfinderdataloader/BookfinderDataLoaderApplication.java:70 | the author is stored under its id and replaces any earlier one; no other entry changes |
| `Entities.BookRepository.Save` | src/main/java/com/springboot/bookfinderdataloader/BookfinderDataLoaderApplication.java:163 | the book is stored under its id and replaces any earlier one; no other entry changes |
| `Ingestion.ReplayEnds` | src/main/java/com/springboot/bookfinderdataloader/BookfinderDataLoaderApplication.java:94-169 | a pass completes exactly when no line aborts; otherwise it stops at the first aborting line, with that line's exception |
| `Ingestion.LastSaveIsLast` | src/main/java/com/springboot/bookfinderdataloader/BookfinderDataLoaderApplication.java:55-76 | the last save of an id in a range of lines is none exactly when no line in range saves the id; otherwise it is the entity of a line that saves it, and no later line in range saves it |
| `Ingestion.LastSaveAt` | src/main/java/com/springboot/bookfinderdataloader/BookfinderDataLoaderApplication.java:70 | the last save of an id is line `j`'s when no later line saves it |
| `Ingestion.ReplayLastWriteWins` | src/main/java/com/springboot/bookfinderdataloader/BookfinderDataLoaderApplication.java:55-76 | after a pass, each id holds the entity of the last processed line that saved it; any other id keeps its earlier entry or stays absent |
| `DataLoader.CoverIds` | src/main/java/com/springboot/bookfinderdataloader/BookfinderDataLoaderApplication.java:127-129 | succeeds exactly when every element is a string, and then gives them all in order; `JsonException` otherwise |
| `DataLoader.AuthorIdsOf` | src/main/java/com/springboot/bookfinderdataloader/BookfinderDataLoaderApplication.java:138-145 | succeeds exactly when every element has the `author.key` string, and then gives each key in order with `"/authors/"` removed |
| `DataLoader.AuthorNames` | src/main/java/com/springboot/bookfinderdataloader/BookfinderDataLoaderApplication.java:149-156 | one name per id, in order: the stored author's name, or `"NA"` |
| `DataLoader.CollectCoverIds` | src/main/java/com/springboot/bookfinderdataloader/BookfinderDataLoaderApplication.java:125-130 | the appending loop over `covers` computes exactly `CoverIds` |
| `DataLoader.CollectAuthorIds` | src/main/java/com/springboot/bookfinderdataloader/BookfinderDataLoaderApplication.java:136-145 | the appending loop over `authors` computes exactly `AuthorIdsOf` |
| `DataLoader.MapWork` | src/main/java/com/springboot/bookfinderdataloader/BookfinderDataLoaderApplication.java:103-158 | building the Book setter by setter gives exactly `Work`: the same book, or the same first exception |
| `DataLoader.Loader.LoadAuthorLine` | src/main/java/com/springboot/bookfinderdataloader/BookfinderDataLoaderApplication.java:56-76 | one author line: the repository gains the mapped Author exactly when the line's outcome is a save, is otherwise unchanged, and the exception escapes exactly when the outcome is an abort |
| `DataLoader.Loader.InitAuthors` | src/main/java/com/springboot/bookfinderdataloader/BookfinderDataLoaderApplication.java:49-82 | the author repository ends as the replay of the author lines over its old contents; the result says whether the pass completed or which line aborted it |
| `DataLoader.Loader.LoadWorkLine` | src/main/java/com/springboot/bookfinderdataloader/BookfinderDataLoaderApplication.java:95-169 | one work line: the book repository gains the mapped Book exactly when the line's outcome is a save, is otherwise unchanged, and the exception escapes exactly when the outcome is an abort |
| `DataLoader.Loader.InitWorks` | src/main/java/com/springboot/bookfinderdataloader/BookfinderDataLoaderApplication.java:84-175 | the book repository ends as the replay of the work lines over its old contents; only the book repository is modified |
| `DataLoader.Loader.Start` | src/main/java/com/springboot/bookfinderdataloader/BookfinderDataLoaderApplication.java:184-192 | runs only the works pass; the author repository is unchanged |
| `LoaderProperties.AuthorLineOutcome` | src/main/java/com/springboot/bookfinderdataloader/BookfinderDataLoaderApplication.java:55-76 | an author line aborts exactly when it has no `{`; otherwise it is skipped exactly when the parser rejects the text from the first `{`, and else saves the mapped Author |
| `LoaderProperties.WorkLineNeedsBrace` | src/main/java/com/springboot/bookfinderdataloader/BookfinderDataLoaderApplication.java:96-100 | a work line without `{` aborts; one the parser rejects is skipped |
| `LoaderProperties.AuthorPassStopsAtLineWithoutBrace` | src/main/java/com/springboot/bookfinderdataloader/BookfinderDataLoaderApplication.java:57 | the first line without `{` ends the author pass with `StringIndexOutOfBounds`, and later lines are not read |
| `LoaderProperties.AuthorWithoutKeyOrName` | src/main/java/com/springboot/bookfinderdataloader/BookfinderDataLoaderApplication.java:64-65 | a missing or null key gives id `""`; a missing name gives `""`; a string name is kept |
| `LoaderProperties.AuthorIdStripsNamespace` | src/main/java/com/springboot/bookfinderdataloader/BookfinderDataLoaderApplication.java:64 | the key `"/authors/" + s`, with no `"/authors/"` in `s`, gives the id `s` |
| `LoaderProperties.AuthorPassLastWriteWins` | src/main/java/com/springboot/bookfinderdataloader/BookfinderDataLoaderApplication.java:55-76 | after the author pass, an id holds the Author of the last processed line carrying it; ids no line saved are untouched |
| `LoaderProperties.ResolveAfterAuthorPass` | src/main/java/com/springboot/bookfinderdataloader/BookfinderDataLoaderApplication.java:149-156 | after the author pass, resolving an id gives the name from the last processed line carrying it |
| `LoaderProperties.UnknownAuthorIsNA` | src/main/java/com/springboot/bookfinderdataloader/BookfinderDataLoaderApplication.java:153-154 | an id missing from the author repository resolves to `"NA"` |
| `LoaderProperties.WorkKey` | src/main/java/com/springboot/bookfinderdataloader/BookfinderDataLoaderApplication.java:105 | a missing or non-string key raises `JsonException`; otherwise the id is the key with `"/works/"` removed |
| `LoaderProperties.WorkLineWithoutKeyIsSkipped` | src/main/java/com/springboot/bookfinderdataloader/BookfinderDataLoaderApplication.java:165-166 | a parsed work line without a string key is skipped, so no Book is saved for it |
| `LoaderProperties.WorkNameAndDescription` | src/main/java/com/springboot/bookfinderdataloader/BookfinderDataLoaderApplication.java:107-114 | the name is `title`; the description is `description.value` for an object and `"NA"` otherwise, including a plain string |
| `LoaderProperties.WorkCovers` | src/main/java/com/springboot/bookfinderdataloader/BookfinderDataLoaderApplication.java:122-131 | coverIds is unset without a `covers` array; with one, it holds its elements in order, all of them strings |
| `LoaderProperties.WorkRejectsNonStringCover` | src/main/java/com/springboot/bookfinderdataloader/BookfinderDataLoaderApplication.java:128 | a non-string cover raises `JsonException` when no earlier field raised |
| `LoaderProperties.WorkAuthors` | src/main/java/com/springboot/bookfinderdataloader/BookfinderDataLoaderApplication.java:134-158 | without an `authors` array both lists are unset; with one, the ids are the nested keys in order, namespace removed, and the names list has the same length with each entry resolved or `"NA"` |
| `LoaderProperties.WorkRejectsMalformedAuthor` | src/main/java/com/springboot/bookfinderdataloader/BookfinderDataLoaderApplication.java:140 | an `authors` element without the object/object/string shape raises `JsonException` when no earlier field raised |
| `LoaderProperties.WorkPublishedDate` | src/main/java/com/springboot/bookfinderdataloader/BookfinderDataLoaderApplication.java:116-120 | the date is unset when `created` is not an object; a `created` object without `value` raises `DateTimeParseException` |
| `LoaderProperties.WorkPublishedDateOfTimestamp` | src/main/java/com/springboot/bookfinderdataloader/BookfinderDataLoaderApplication.java:116-120 | a well-formed `created.value` gives the date part of that timestamp |
| `LoaderProperties.WorkParts` | src/main/java/com/springboot/bookfinderdataloader/BookfinderDataLoaderApplication.java:103-158 | a Book is built exactly when key, date, covers and authors all succeed, and it is built from those values |
| `LoaderProperties.WorkLineWithBadDateAborts` | src/main/java/com/springboot/bookfinderdataloader/BookfinderDataLoaderApplication.java:119 | an unparsable date ends the works pass instead of skipping the line |
| `LoaderProperties.ExampleAuthorIds` | src/main/java/com/springboot/bookfinderdataloader/BookfinderDataLoaderApplication.java:134-147 | the author `/authors/OL1A` gives the id list `["OL1A"]` |
| `LoaderProperties.ExampleWork` | src/main/java/com/springboot/bookfinderdataloader/BookfinderDataLoaderApplication.java:103-158 | the work `/works/OL1W` titled `Test`, whose author `OL1A` is stored as `Jane Doe`, gives that Book with description `"NA"` |

## Left out

- File I/O: `Files.lines`, the `IOException` handler and the progress and `printStackTrace` output are not modelled. The `Loader` receives each file's lines as a sequence.
- The org.json text parser is a parameter. A parser failure is taken to be a `JSONException`. Other errors from it, such as a stack overflow on deep nesting, are not modelled.
- What an abort does next is not modelled. The exception leaves `start()` and fails application startup. The model stops the pass and reports `Aborted(line, cause)`.
- The Spring bootstrap, the `@Autowired` and `@Value` wiring, `main`, and the Cassandra session customizer are not modelled. They are configuration.
- The Cassandra repositories are in-memory maps with overwrite on save. Consistency and the network are not modelled.
- Author.java, Book.java, AuthorRepository.java and BookRepository.java are not part of this model. The entity fields are inferred from the setters the loader calls. A Book is built as one value at the end, not by setters on a mutable bean.
- The per-line lambdas are methods, `LoadAuthorLine` and `LoadWorkLine`. The two loops inside the work lambda are separate methods, `CollectCoverIds` and `CollectAuthorIds`.
- ParseLocalDate: the year must be exactly four digits. java.time's `yyyy` also accepts a `+` followed by five or more digits. The model rejects such years where Java would give a date.
- The org.json release is not pinned by the repository. The model assumes a current release, whose `JSONObject.getString` and `JSONArray.getString` throw `JSONException` for a value that is not a string. Early releases returned the value's `toString()` instead. Under those, a `covers` array of numbers would be saved as their text, where the model skips the work.
- `findById` is the map lookup inside `AuthorName`; the repository has no separate lookup member.
- Strings are sequences of Unicode scalar values. UTF-16 surrogate pairs are not modelled.
- A number is kept as the text `Number.toString()` gives for the value the parser built. The choice of `Integer`, `Long`, `BigDecimal` or `Double` is the parser's.
- JSON text of objects lists members in the value's own order. org.json's `HashMap` order is unspecified.
