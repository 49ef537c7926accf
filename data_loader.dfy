/** The dump loader: the author pass (`initAuthors`) and the works pass
    (`initWorks`). Each dump line carries a prefix before its JSON object;
    the object is parsed, mapped to an entity and saved, and the per-line
    outcome follows the Java exception that may interrupt it. */
module DataLoader {
  import opened Wrappers
  import opened JavaStrings
  import opened OrgJson
  import opened LocalDates
  import opened Entities
  import opened Ingestion

  /** `line.substring(line.indexOf("{"))`: the text from the first `{` on.
      A line without `{` makes `substring(-1)` throw. */
  function ExtractJson(line: string): (r: Result<string>)
    ensures r.Ok? <==> '{' in line
    ensures r.Err? ==> r.error == StringIndexOutOfBounds
    ensures r.Ok? ==>
      var k := |line| - |r.value|;
      0 <= k < |line| && r.value == line[k..] && line[k] == '{' && '{' !in line[..k]
  {
    Substring(line, IndexOf(line, '{'))
  }

  // ---------------------------------------------------------------------
  // Authors

  /** The Author built from one parsed author object. */
  function MapAuthor(o: JsonObject): Author {
    Author(RemoveAll(OptString(o, "key"), "/authors/"), OptString(o, "name"))
  }

  /** One line of the author pass. */
  function AuthorLine(line: string, parse: Parser): Step<Author> {
    match ExtractJson(line)
    case Err(e) => Abort(e)
    case Ok(text) =>
      match parse(text)
      case None => Skip
      case Some(o) => var a := MapAuthor(o); Save(a.id, a)
  }

  function AuthorStep(parse: Parser): string -> Step<Author> {
    line => AuthorLine(line, parse)
  }

  // ---------------------------------------------------------------------
  // Works

  /** `description.value` when `description` is an object, else "NA". */
  function Description(o: JsonObject): string {
    match OptObject(o, "description")
    case Some(d) => OptString(d, "value")
    case None => "NA"
  }

  /** The published date: set only when `created` is an object, and then the
      date of `created.value`, whose parse may throw. */
  function PublishedDate(o: JsonObject): Result<Option<Date>> {
    match OptObject(o, "created")
    case None => Ok(None)
    case Some(created) =>
      var date :- ParseLocalDate(OptString(created, "value"));
      Ok(Some(date))
  }

  /** `getString(i)` of every element, in order. */
  function CoverIds(elems: seq<Json>): (r: Result<seq<string>>)
    ensures r.Ok? <==> forall i :: 0 <= i < |elems| ==> elems[i].JString?
    ensures r.Ok? ==> |r.value| == |elems| && forall i :: 0 <= i < |elems| ==> r.value[i] == elems[i].s
    ensures r.Err? ==> r.error == JsonException
  {
    if |elems| == 0 then Ok([])
    else
      var first :- ElementString(elems, 0);
      var rest :- CoverIds(elems[1..]);
      Ok([first] + rest)
  }

  /** The cover ids: set only when `covers` is an array. */
  function Covers(o: JsonObject): Result<Option<seq<string>>> {
    match OptArray(o, "covers")
    case None => Ok(None)
    case Some(a) =>
      var ids :- CoverIds(a);
      Ok(Some(ids))
  }

  /** `getJSONObject(i).getJSONObject("author").getString("key")` on the
      element `v` of the `authors` array. */
  function AuthorKey(v: Json): (r: Result<string>)
    ensures r.Err? ==> r.error == JsonException
  {
    match v
    case JObject(entry) =>
      var author :- GetObject(entry, "author");
      GetString(author, "key")
    case _ => Err(JsonException)
  }

  /** The author id of every element, in order, namespace removed. */
  function AuthorIdsOf(elems: seq<Json>): (r: Result<seq<string>>)
    ensures r.Ok? <==> forall i :: 0 <= i < |elems| ==> AuthorKey(elems[i]).Ok?
    ensures r.Ok? ==>
      |r.value| == |elems|
      && forall i :: 0 <= i < |elems| ==> r.value[i] == RemoveAll(AuthorKey(elems[i]).value, "/authors/")
    ensures r.Err? ==> r.error == JsonException
  {
    if |elems| == 0 then Ok([])
    else
      var key :- AuthorKey(elems[0]);
      var rest :- AuthorIdsOf(elems[1..]);
      Ok([RemoveAll(key, "/authors/")] + rest)
  }

  /** The author ids: set only when `authors` is an array. */
  function AuthorIds(o: JsonObject): Result<Option<seq<string>>> {
    match OptArray(o, "authors")
    case None => Ok(None)
    case Some(a) =>
      var ids :- AuthorIdsOf(a);
      Ok(Some(ids))
  }

  /** `findById(id)` mapped to the author's name, "NA" when there is none. */
  function AuthorName(authors: map<string, Author>, id: string): string {
    if id in authors then authors[id].name else "NA"
  }

  /** The stream `map` over the author ids: one lookup per id, in order. */
  function AuthorNames(authors: map<string, Author>, ids: seq<string>): (r: seq<string>)
    ensures |r| == |ids|
    ensures forall i :: 0 <= i < |ids| ==> r[i] == AuthorName(authors, ids[i])
  {
    if |ids| == 0 then [] else [AuthorName(authors, ids[0])] + AuthorNames(authors, ids[1..])
  }

  /** The Book built from one parsed work object, or the exception raised
      while building it. Fields are read in source order, so the first
      failing field decides the exception. */
  function Work(o: JsonObject, authors: map<string, Author>): Result<Book> {
    var key :- GetString(o, "key");
    var published :- PublishedDate(o);
    var covers :- Covers(o);
    var ids :- AuthorIds(o);
    Ok(Book(
      id := RemoveAll(key, "/works/"),
      name := OptString(o, "title"),
      description := Description(o),
      publishedDate := published,
      coverIds := covers,
      authorIds := ids,
      authorNames := if ids.Some? then Some(AuthorNames(authors, ids.value)) else None))
  }

  /** The cover loop: `coverIds.add(coverArray.getString(i))` for each `i`. */
  method CollectCoverIds(a: seq<Json>) returns (r: Result<seq<string>>)
    ensures r == CoverIds(a)
  {
    var ids: seq<string> := [];
    var i := 0;
    while i < |a|
      invariant 0 <= i <= |a|
      invariant forall j :: 0 <= j < i ==> a[j].JString?
      invariant |ids| == i && forall j :: 0 <= j < i ==> ids[j] == a[j].s
    {
      var c :- ElementString(a, i);
      ids := ids + [c];
      i := i + 1;
    }
    assert CoverIds(a).Ok? && CoverIds(a).value == ids;
    return Ok(ids);
  }

  /** The author-id loop: the nested key of each element, namespace removed,
      appended in order. */
  method CollectAuthorIds(a: seq<Json>) returns (r: Result<seq<string>>)
    ensures r == AuthorIdsOf(a)
  {
    var ids: seq<string> := [];
    var i := 0;
    while i < |a|
      invariant 0 <= i <= |a|
      invariant forall j :: 0 <= j < i ==> AuthorKey(a[j]).Ok?
      invariant |ids| == i
      invariant forall j :: 0 <= j < i ==> ids[j] == RemoveAll(AuthorKey(a[j]).value, "/authors/")
    {
      AuthorKeyOfElement(a, i);
      var entry :- ElementObject(a, i);
      var author :- GetObject(entry, "author");
      var authorKey :- GetString(author, "key");
      ids := ids + [RemoveAll(authorKey, "/authors/")];
      i := i + 1;
    }
    assert AuthorIdsOf(a).Ok? && AuthorIdsOf(a).value == ids;
    return Ok(ids);
  }

  /** `getJSONObject(i).getJSONObject("author").getString("key")` is the
      author key of element `i`. */
  lemma AuthorKeyOfElement(a: seq<Json>, i: nat)
    requires i < |a|
    ensures AuthorKey(a[i]) ==
      match ElementObject(a, i)
      case Err(e) => Err(e)
      case Ok(entry) =>
        match GetObject(entry, "author")
        case Err(e) => Err(e)
        case Ok(author) => GetString(author, "key")
  {
  }

  /** Builds the Book the way the loader does, setter by setter, with the
      cover and author-id loops appending to lists. */
  method MapWork(o: JsonObject, authors: map<string, Author>) returns (r: Result<Book>)
    ensures r == Work(o, authors)
  {
    var key :- GetString(o, "key");
    var id := RemoveAll(key, "/works/");
    var name := OptString(o, "title");

    var description;
    var descriptionObj := OptObject(o, "description");
    if descriptionObj.Some? {
      description := OptString(descriptionObj.value, "value");
    } else {
      description := "NA";
    }

    var publishedDate := None;
    var pubObj := OptObject(o, "created");
    if pubObj.Some? {
      var dateString := OptString(pubObj.value, "value");
      var date :- ParseLocalDate(dateString);
      publishedDate := Some(date);
    }

    var coverIds := None;
    var coverArray := OptArray(o, "covers");
    if coverArray.Some? {
      var ids :- CollectCoverIds(coverArray.value);
      coverIds := Some(ids);
    }

    var authorIds := None;
    var authorNames := None;
    var authorsArr := OptArray(o, "authors");
    if authorsArr.Some? {
      var ids :- CollectAuthorIds(authorsArr.value);
      authorIds := Some(ids);
      authorNames := Some(AuthorNames(authors, ids));
    }

    r := Ok(Book(id, name, description, publishedDate, coverIds, authorIds, authorNames));
  }

  /** One line of the works pass: JSONException skips the line, any other
      exception aborts the pass. */
  function WorkLine(line: string, parse: Parser, authors: map<string, Author>): Step<Book> {
    match ExtractJson(line)
    case Err(e) => Abort(e)
    case Ok(text) =>
      match parse(text)
      case None => Skip
      case Some(o) =>
        match Work(o, authors)
        case Ok(b) => Save(b.id, b)
        case Err(JsonException) => Skip
        case Err(e) => Abort(e)
  }

  function WorkStep(parse: Parser, authors: map<string, Author>): string -> Step<Book> {
    line => WorkLine(line, parse, authors)
  }

  // ---------------------------------------------------------------------
  // The application

  /** The loader with its two repositories, the lines of the two dump files
      and the JSON parser. */
  class Loader {
    const authorRepository: AuthorRepository
    const bookRepository: BookRepository
    const authorLines: seq<string>
    const workLines: seq<string>
    const parse: Parser

    constructor (authorRepository: AuthorRepository, bookRepository: BookRepository,
                 authorLines: seq<string>, workLines: seq<string>, parse: Parser)
      ensures this.authorRepository == authorRepository && this.bookRepository == bookRepository
      ensures this.authorLines == authorLines && this.workLines == workLines && this.parse == parse
    {
      this.authorRepository := authorRepository;
      this.bookRepository := bookRepository;
      this.authorLines := authorLines;
      this.workLines := workLines;
      this.parse := parse;
    }

    /** The body of the author lambda for one line: save the mapped Author,
        skip the line on a JSONException, or report the exception that
        escapes. */
    method LoadAuthorLine(line: string) returns (failure: Option<Exception>)
      modifies authorRepository
      ensures var s := AuthorLine(line, parse);
        (s.Save? ==> authorRepository.rows == old(authorRepository.rows)[s.id := s.entity])
        && (!s.Save? ==> authorRepository.rows == old(authorRepository.rows))
        && (failure.Some? <==> s.Abort?)
        && (s.Abort? ==> failure.value == s.cause)
    {
      var json := ExtractJson(line);
      if json.Err? {
        return Some(json.error);
      }
      var jo := parse(json.value);
      if jo.Some? {
        var author := MapAuthor(jo.value);
        authorRepository.Save(author);
      }
      failure := None;
    }

    /** `initAuthors`: saves one Author per parsed line, in file order. */
    method InitAuthors() returns (end: PassEnd)
      modifies authorRepository
      ensures Run(authorRepository.rows, end) == Replay(old(authorRepository.rows), authorLines, AuthorStep(parse), 0)
    {
      ghost var step := AuthorStep(parse);
      var i := 0;
      while i < |authorLines|
        invariant 0 <= i <= |authorLines|
        invariant Replay(old(authorRepository.rows), authorLines, step, 0) == Replay(authorRepository.rows, authorLines, step, i)
      {
        assert step(authorLines[i]) == AuthorLine(authorLines[i], parse);
        ghost var before := authorRepository.rows;
        var failure := LoadAuthorLine(authorLines[i]);
        assert failure.None? ==>
          Replay(before, authorLines, step, i) == Replay(authorRepository.rows, authorLines, step, i + 1);
        if failure.Some? {
          return Aborted(i, failure.value);
        }
        i := i + 1;
      }
      end := Completed;
    }

    /** The body of the works lambda for one line: save the mapped Book, skip
        the line on a JSONException, or report the exception that escapes. */
    method LoadWorkLine(line: string) returns (failure: Option<Exception>)
      modifies bookRepository
      ensures var s := WorkLine(line, parse, authorRepository.rows);
        (s.Save? ==> bookRepository.rows == old(bookRepository.rows)[s.id := s.entity])
        && (!s.Save? ==> bookRepository.rows == old(bookRepository.rows))
        && (failure.Some? <==> s.Abort?)
        && (s.Abort? ==> failure.value == s.cause)
    {
      var json := ExtractJson(line);
      if json.Err? {
        return Some(json.error);
      }
      var jo := parse(json.value);
      failure := None;
      if jo.Some? {
        var b := MapWork(jo.value, authorRepository.rows);
        match b {
          case Ok(book) => bookRepository.Save(book);
          case Err(JsonException) =>
          case Err(e) => failure := Some(e);
        }
      }
    }

    /** `initWorks`: saves one Book per line that maps without exception,
        in file order, reading the author repository for the names. */
    method InitWorks() returns (end: PassEnd)
      modifies bookRepository
      ensures Run(bookRepository.rows, end) == Replay(old(bookRepository.rows), workLines, WorkStep(parse, authorRepository.rows), 0)
    {
      ghost var step := WorkStep(parse, authorRepository.rows);
      var i := 0;
      while i < |workLines|
        invariant 0 <= i <= |workLines|
        invariant Replay(old(bookRepository.rows), workLines, step, 0) == Replay(bookRepository.rows, workLines, step, i)
      {
        assert step(workLines[i]) == WorkLine(workLines[i], parse, authorRepository.rows);
        ghost var before := bookRepository.rows;
        var failure := LoadWorkLine(workLines[i]);
        assert failure.None? ==>
          Replay(before, workLines, step, i) == Replay(bookRepository.rows, workLines, step, i + 1);
        if failure.Some? {
          return Aborted(i, failure.value);
        }
        i := i + 1;
      }
      end := Completed;
    }

    /** `start`: only the works pass runs; the author pass is disabled. */
    method Start() returns (end: PassEnd)
      modifies bookRepository
      ensures Run(bookRepository.rows, end) == Replay(old(bookRepository.rows), workLines, WorkStep(parse, authorRepository.rows), 0)
      ensures authorRepository.rows == old(authorRepository.rows)
    {
      end := InitWorks();
    }
  }
}
