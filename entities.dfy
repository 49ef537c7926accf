/** The two persisted entities and the two repositories they are saved to.
    A repository is an in-memory table keyed by the entity's id: `save`
    inserts or overwrites. */
module Entities {
  import opened Wrappers
  import LocalDates

  datatype Author = Author(id: string, name: string)

  /** A work. The optional fields are the ones the loader may leave unset
      (null in the Java bean). */
  datatype Book = Book(
    id: string,
    name: string,
    description: string,
    publishedDate: Option<LocalDates.Date>,
    coverIds: Option<seq<string>>,
    authorIds: Option<seq<string>>,
    authorNames: Option<seq<string>>)

  class AuthorRepository {
    var rows: map<string, Author>

    constructor ()
      ensures rows == map[]
    {
      rows := map[];
    }

    /** `save(author)`: last write wins. */
    method Save(a: Author)
      modifies this
      ensures rows == old(rows)[a.id := a]
    {
      rows := rows[a.id := a];
    }
  }

  class BookRepository {
    var rows: map<string, Book>

    constructor ()
      ensures rows == map[]
    {
      rows := map[];
    }

    /** `save(book)`: last write wins. */
    method Save(b: Book)
      modifies this
      ensures rows == old(rows)[b.id := b]
    {
      rows := rows[b.id := b];
    }
  }
}
