/** What the loader promises, stated over the specification functions of
    the DataLoader module. */
module LoaderProperties {
  import opened Wrappers
  import opened JavaStrings
  import opened OrgJson
  import opened LocalDates
  import opened Entities
  import opened Ingestion
  import opened DataLoader

  // ---------------------------------------------------------------------
  // Line extraction

  /** An author line ends the pass exactly when it has no `{`; otherwise the
      parser sees the text from the first `{`, and a parse failure skips the
      line while a parsed object is saved as its Author. */
  lemma AuthorLineOutcome(line: string, parse: Parser)
    ensures AuthorLine(line, parse) == Abort(StringIndexOutOfBounds) <==> '{' !in line
    ensures '{' in line ==>
      var text := line[IndexOf(line, '{')..];
      (AuthorLine(line, parse) == Skip <==> parse(text).None?)
      && (parse(text).Some? ==>
            AuthorLine(line, parse) == Save(MapAuthor(parse(text).value).id, MapAuthor(parse(text).value)))
  {
  }

  /** A work line without `{` ends the pass; a line the parser rejects is
      skipped. */
  lemma WorkLineNeedsBrace(line: string, parse: Parser, authors: map<string, Author>)
    ensures '{' !in line ==> WorkLine(line, parse, authors) == Abort(StringIndexOutOfBounds)
    ensures '{' in line && parse(line[IndexOf(line, '{')..]).None? ==> WorkLine(line, parse, authors) == Skip
  {
  }

  /** A line without `{` ends the whole author pass there, when no earlier
      line did: the lines after it are never read. */
  lemma AuthorPassStopsAtLineWithoutBrace(rows: map<string, Author>, lines: seq<string>, parse: Parser, j: nat)
    requires j < |lines| && '{' !in lines[j]
    requires forall k :: 0 <= k < j ==> '{' in lines[k]
    ensures Replay(rows, lines, AuthorStep(parse), 0).end == Aborted(j, StringIndexOutOfBounds)
  {
    var step := AuthorStep(parse);
    forall k | 0 <= k < j ensures !step(lines[k]).Abort? {
      AuthorLineOutcome(lines[k], parse);
    }
    assert step(lines[j]).Abort?;
    ReplayEnds(rows, lines, step, 0);
  }

  // ---------------------------------------------------------------------
  // Authors

  /** The author id is the `key` text with "/authors/" removed: "" when the
      key is missing or null; the name is `name`, "" when missing. */
  lemma AuthorWithoutKeyOrName(o: JsonObject)
    ensures Opt(o, "key") == None || Opt(o, "key") == Some(JNull) ==> MapAuthor(o).id == ""
    ensures Opt(o, "name") == None ==> MapAuthor(o).name == ""
    ensures Opt(o, "name").Some? && Opt(o, "name").value.JString? ==> MapAuthor(o).name == Opt(o, "name").value.s
  {
  }

  /** A key "/authors/" + s, with no further "/authors/" in s, gives the id s. */
  lemma AuthorIdStripsNamespace(o: JsonObject, s: string)
    requires Opt(o, "key") == Some(JString("/authors/" + s))
    requires !Contains(s, "/authors/")
    ensures MapAuthor(o).id == s
  {
    StripNamespace("/authors/", s);
  }

  /** Last write wins in the author pass: an id the processed lines saved
      holds the Author of the last of them, any other id keeps its earlier
      entry (or stays absent). */
  lemma AuthorPassLastWriteWins(rows: map<string, Author>, lines: seq<string>, parse: Parser, id: string)
    ensures var run := Replay(rows, lines, AuthorStep(parse), 0);
      Reached(run, lines) <= |lines|
      && var last := LastSave(lines, AuthorStep(parse), 0, Reached(run, lines), id);
         (last.Some? ==> id in run.rows && run.rows[id] == last.value && run.rows[id].id == id)
         && (last.None? ==> (id in run.rows <==> id in rows) && (id in rows ==> run.rows[id] == rows[id]))
  {
    var step := AuthorStep(parse);
    var run := Replay(rows, lines, step, 0);
    ReplayLastWriteWins(rows, lines, step, 0, id);
    var n := Reached(run, lines);
    var last := LastSave(lines, step, 0, n, id);
    if last.Some? {
      LastSaveIsLast(lines, step, 0, n, id);
      var j :| 0 <= j < n && step(lines[j]) == Save(id, last.value);
      assert AuthorLine(lines[j], parse) == Save(id, last.value);
      AuthorLineOutcome(lines[j], parse);
    }
  }

  /** Resolving an author id after the author pass: the name from the last
      processed line carrying that id. */
  lemma ResolveAfterAuthorPass(rows: map<string, Author>, lines: seq<string>, parse: Parser, j: nat, a: Author)
    requires j < Reached(Replay(rows, lines, AuthorStep(parse), 0), lines) <= |lines|
    requires AuthorLine(lines[j], parse) == Save(a.id, a)
    requires forall k :: j < k < Reached(Replay(rows, lines, AuthorStep(parse), 0), lines) ==>
               !SavesId(AuthorLine(lines[k], parse), a.id)
    ensures AuthorName(Replay(rows, lines, AuthorStep(parse), 0).rows, a.id) == a.name
  {
    var step := AuthorStep(parse);
    var run := Replay(rows, lines, step, 0);
    var n := Reached(run, lines);
    ReplayLastWriteWins(rows, lines, step, 0, a.id);
    assert LastSave(lines, step, 0, n, a.id) == Some(a) by {
      LastSaveAt(lines, step, 0, n, j, a.id);
    }
  }

  /** An unknown author id resolves to "NA", never to an error. */
  lemma UnknownAuthorIsNA(authors: map<string, Author>, ids: seq<string>, i: nat)
    requires i < |ids| && ids[i] !in authors
    ensures AuthorNames(authors, ids)[i] == "NA"
  {
  }

  // ---------------------------------------------------------------------
  // Works

  /** `key` is required: a work whose key is missing or not a string raises
      JSONException, so its line is skipped; otherwise the id is the key
      with "/works/" removed. */
  lemma WorkKey(o: JsonObject, authors: map<string, Author>)
    ensures !(Opt(o, "key").Some? && Opt(o, "key").value.JString?) ==> Work(o, authors) == Err(JsonException)
    ensures Work(o, authors).Ok? ==>
      Opt(o, "key").Some? && Opt(o, "key").value.JString?
      && Work(o, authors).value.id == RemoveAll(Opt(o, "key").value.s, "/works/")
  {
  }

  /** A parsed work line without a string key saves nothing. */
  lemma WorkLineWithoutKeyIsSkipped(line: string, parse: Parser, authors: map<string, Author>)
    requires '{' in line
    requires parse(line[IndexOf(line, '{')..]).Some?
    requires !GetString(parse(line[IndexOf(line, '{')..]).value, "key").Ok?
    ensures WorkLine(line, parse, authors) == Skip
  {
    WorkKey(parse(line[IndexOf(line, '{')..]).value, authors);
  }

  /** Name and description: the name is `title`; the description is
      `description.value` when `description` is an object and "NA" in every
      other case, a plain string included. */
  lemma WorkNameAndDescription(o: JsonObject, authors: map<string, Author>)
    requires Work(o, authors).Ok?
    ensures Work(o, authors).value.name == OptString(o, "title")
    ensures OptObject(o, "description").Some? ==>
      Work(o, authors).value.description == OptString(OptObject(o, "description").value, "value")
    ensures OptObject(o, "description").None? ==> Work(o, authors).value.description == "NA"
    ensures Opt(o, "description").Some? && Opt(o, "description").value.JString? ==>
      Work(o, authors).value.description == "NA"
  {
  }

  /** Covers: absent or not an array leaves coverIds unset; an array of
      strings gives them in order. */
  lemma WorkCovers(o: JsonObject, authors: map<string, Author>)
    requires Work(o, authors).Ok?
    ensures OptArray(o, "covers").None? ==> Work(o, authors).value.coverIds.None?
    ensures OptArray(o, "covers").Some? ==>
      var a := OptArray(o, "covers").value;
      var ids := Work(o, authors).value.coverIds;
      ids.Some? && |ids.value| == |a| && forall i :: 0 <= i < |a| ==> a[i].JString? && ids.value[i] == a[i].s
  {
  }

  /** A cover that is not a string makes the work raise JSONException (when
      no earlier field raised first). */
  lemma WorkRejectsNonStringCover(o: JsonObject, authors: map<string, Author>, i: nat)
    requires GetString(o, "key").Ok? && PublishedDate(o).Ok?
    requires OptArray(o, "covers").Some? && i < |OptArray(o, "covers").value|
    requires !OptArray(o, "covers").value[i].JString?
    ensures Work(o, authors) == Err(JsonException)
  {
  }

  /** Authors: absent leaves both lists unset; an array gives the nested
      keys in order with "/authors/" removed, and a parallel list of names,
      each the stored name or "NA". */
  lemma WorkAuthors(o: JsonObject, authors: map<string, Author>)
    requires Work(o, authors).Ok?
    ensures OptArray(o, "authors").None? ==>
      Work(o, authors).value.authorIds.None? && Work(o, authors).value.authorNames.None?
    ensures OptArray(o, "authors").Some? ==>
      var a := OptArray(o, "authors").value;
      var b := Work(o, authors).value;
      b.authorIds.Some? && b.authorNames.Some?
      && |b.authorIds.value| == |a| == |b.authorNames.value|
      && forall i :: 0 <= i < |a| ==>
           AuthorKey(a[i]).Ok?
           && b.authorIds.value[i] == RemoveAll(AuthorKey(a[i]).value, "/authors/")
           && b.authorNames.value[i] ==
                (if b.authorIds.value[i] in authors then authors[b.authorIds.value[i]].name else "NA")
  {
  }

  /** An `authors` element without the object/object/string shape makes the
      work raise JSONException (when no earlier field raised first). */
  lemma WorkRejectsMalformedAuthor(o: JsonObject, authors: map<string, Author>, i: nat)
    requires GetString(o, "key").Ok? && PublishedDate(o).Ok? && Covers(o).Ok?
    requires OptArray(o, "authors").Some? && i < |OptArray(o, "authors").value|
    requires AuthorKey(OptArray(o, "authors").value[i]).Err?
    ensures Work(o, authors) == Err(JsonException)
  {
  }

  /** Published date: unset when `created` is not an object; a missing
      `created.value` ("" from optString) raises DateTimeParseException,
      which is not caught. */
  lemma WorkPublishedDate(o: JsonObject, authors: map<string, Author>)
    ensures Work(o, authors).Ok? && OptObject(o, "created").None? ==>
      Work(o, authors).value.publishedDate.None?
    ensures GetString(o, "key").Ok? && OptObject(o, "created").Some?
            && Opt(OptObject(o, "created").value, "value").None? ==>
      Work(o, authors) == Err(DateTimeParseException)
  {
  }

  /** A well-formed `created.value` gives the date part of that timestamp. */
  lemma WorkPublishedDateOfTimestamp(o: JsonObject, authors: map<string, Author>,
                                     y: nat, mo: nat, d: nat, h: nat, mi: nat, s: nat, f: nat)
    requires Valid(Date(y, mo, d)) && y <= 9999
    requires h <= 23 && mi <= 59 && s <= 59 && f <= 999999
    requires OptObject(o, "created").Some?
    requires Opt(OptObject(o, "created").value, "value") == Some(JString(Timestamp(y, mo, d, h, mi, s, f)))
    requires Work(o, authors).Ok?
    ensures Work(o, authors).value.publishedDate == Some(Date(y, mo, d))
  {
    var created := OptObject(o, "created").value;
    var text := Timestamp(y, mo, d, h, mi, s, f);
    assert OptString(created, "value") == text;
    ParseTimestamp(y, mo, d, h, mi, s, f);
    assert PublishedDate(o) == Ok(Some(Date(y, mo, d)));
    WorkParts(o, authors);
  }

  /** A Book is built only when every field that can raise did not, and
      then from exactly those fields. */
  lemma WorkParts(o: JsonObject, authors: map<string, Author>)
    ensures Work(o, authors).Ok? <==>
      GetString(o, "key").Ok? && PublishedDate(o).Ok? && Covers(o).Ok? && AuthorIds(o).Ok?
    ensures Work(o, authors).Ok? ==>
      var b := Work(o, authors).value;
      b.id == RemoveAll(GetString(o, "key").value, "/works/")
      && b.publishedDate == PublishedDate(o).value
      && b.coverIds == Covers(o).value
      && b.authorIds == AuthorIds(o).value
  {
  }

  /** A bad date on a line ends the works pass instead of skipping the line. */
  lemma WorkLineWithBadDateAborts(line: string, parse: Parser, authors: map<string, Author>)
    requires '{' in line
    requires parse(line[IndexOf(line, '{')..]).Some?
    requires var o := parse(line[IndexOf(line, '{')..]).value;
      GetString(o, "key").Ok? && OptObject(o, "created").Some?
      && ParseLocalDate(OptString(OptObject(o, "created").value, "value")).Err?
    ensures WorkLine(line, parse, authors) == Abort(DateTimeParseException)
  {
  }

  /** The worked example: a work with a key, a title and one author whose
      record was saved earlier. */
  function ExampleEntry(): Json {
    JObject([Member("author", JObject([Member("key", JString("/authors/OL1A"))]))])
  }

  function ExampleWorkObject(): JsonObject {
    [Member("key", JString("/works/OL1W")), Member("title", JString("Test")),
     Member("authors", JArray([ExampleEntry()]))]
  }

  lemma ExampleWork()
    ensures Work(ExampleWorkObject(), map["OL1A" := Author("OL1A", "Jane Doe")])
              == Ok(Book("OL1W", "Test", "NA", None, None, Some(["OL1A"]), Some(["Jane Doe"])))
  {
    ExampleAuthorIds();
    ExampleFields();
    ExampleNames();
  }

  lemma ExampleFields()
    ensures var o := ExampleWorkObject();
      GetString(o, "key") == Ok("/works/OL1W") && RemoveAll("/works/OL1W", "/works/") == "OL1W"
      && OptString(o, "title") == "Test" && Description(o) == "NA"
      && PublishedDate(o) == Ok(None) && Covers(o) == Ok(None)
  {
    var o := ExampleWorkObject();
    assert Opt(o, "key") == Some(JString("/works/OL1W"));
    assert Opt(o, "title") == Some(JString("Test"));
    assert Opt(o, "description") == None;
    assert Opt(o, "created") == None;
    assert Opt(o, "covers") == None;
    ExampleWorkId();
  }

  lemma ExampleWorkId()
    ensures RemoveAll("/works/OL1W", "/works/") == "OL1W"
  {
    var works: string := "/works/";
    assert !Contains("OL1W", works);
    StripNamespace(works, "OL1W");
    assert works + "OL1W" == "/works/OL1W";
  }

  lemma ExampleNames()
    ensures AuthorNames(map["OL1A" := Author("OL1A", "Jane Doe")], ["OL1A"]) == ["Jane Doe"]
  {
    var names := AuthorNames(map["OL1A" := Author("OL1A", "Jane Doe")], ["OL1A"]);
    assert |names| == 1 && names[0] == "Jane Doe";
  }

  lemma ExampleAuthorIds()
    ensures AuthorIds(ExampleWorkObject()) == Ok(Some(["OL1A"]))
  {
    var entry := ExampleEntry();
    var ns: string := "/authors/";
    assert !Contains("OL1A", ns);
    StripNamespace(ns, "OL1A");
    assert ns + "OL1A" == "/authors/OL1A";
    assert AuthorKey(entry) == Ok("/authors/OL1A");
    assert [entry][0] == entry;
    var ids := AuthorIdsOf([entry]).value;
    assert |ids| == 1 && ids[0] == "OL1A";
    assert ids == ["OL1A"];
    assert OptArray(ExampleWorkObject(), "authors") == Some([entry]);
  }
}
