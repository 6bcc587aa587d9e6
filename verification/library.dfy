/**
 * The documents the reader works on: the entries of the library manifest and
 * the content document of one book, as they arrive from the static JSON files.
 */
module Library {

  /** One entry of the library manifest, as listed in the library grid. */
  datatype LibraryEntry = LibraryEntry(
    id: int,
    title: string,
    author: string,
    coverImage: string,
    contentFile: string)

  /** A chapter: a title and its paragraphs, in reading order. */
  datatype Chapter = Chapter(title: string, content: seq<string>)

  /** The content document of one book. */
  datatype Book = Book(title: string, author: string, chapters: seq<Chapter>)
}
