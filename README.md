# Quote search: the ingest loader and the response shaping, in Dafny

The system indexes a dataset of quotations in a vector store and answers
free-text queries with the three closest quotations. Embedding, indexing and
nearest-neighbour search belong to third-party libraries. The repository's
own logic is two small transformations, and this project models both:

- **Loading quotes** (`load_quotes`, backend/ingest.py). The parsed dataset
  is a list of records. It becomes three parallel lists: document texts,
  metadata entries and identifiers. A record is kept only when its `Quote`
  is a string. Its text is `"<quote>" — <author>` when `Author` is a string,
  and the quote alone otherwise. Every newline in the text becomes a space.
  Its metadata is the raw `Author` and `Category` values. Its identifier is
  `quote_<i>`, where `i` is the record's position in the original list, so
  skipped records leave gaps.
- **Shaping a search response** (`search_quotes`, backend/app.py). The
  store's answer holds parallel `documents`, `metadatas` and `distances`
  lists with one row per query text. The endpoint zips row 0 into
  `{quote, metadata, score}` records, in the store's order.

Modules:

- `Json` (json.dfy): JSON values, and a record field that may be absent.
  `Get` is Python's `dict.get`. A missing key and a JSON `null` both read as
  `Null`, as they both become `None` in Python.
- `Numerals` (numerals.dfy): the decimal numeral of a natural number (what
  the f-string `quote_{i}` writes). It comes with a parser and the proof that
  parsing the numeral gives the number back, so different positions get
  different numerals.
- `Ingest` (ingest.dfy): records, metadata, the text formatting, the
  selection of kept records (`KeptIndices`), and `LoadQuotes`. `LoadQuotes`
  is the loop of the source, with its `continue` and its three appends,
  proved against `KeptIndices`.
- `Search` (search.dfy): the store's answer, with the metadata and distance
  types left as parameters `Meta` and `Score`, and `SearchQuotes`.
  `SearchQuotes` is the indexed loop of the source, proved against the
  reference definition `Zip`.

The separator on backend/ingest.py:40 is meant to be an em dash (U+2014).
The file instead holds the three characters U+00E2, U+20AC and U+201D
(`â€”`), which is the UTF-8 encoding of U+2014 decoded as Windows-1252. The
model uses the intended separator: space, U+2014, space (`Ingest.Separator`).

## Model

| member | source | states |
|---|---|---|
| `Numerals.Decimal` | backend/ingest.py:51 | The numeral of `n` is non-empty and all digits. It starts with `0` exactly when `n` is 0, and the numeral of 0 is `0` alone, so no numeral has leading zeros. |
| `Numerals.ParseDecimalOfDecimal` | backend/ingest.py:51 | Reading the numeral of `n` back gives `n`. |
| `Numerals.DecimalInjective` | backend/ingest.py:51 | Two numbers have the same numeral exactly when they are equal. |
| `Ingest.ReplaceNewlines` | backend/ingest.py:44 | The result has the input's length. Each newline becomes a space, and every other character is unchanged at its position. |
| `Ingest.ReplaceNewlinesAppend` | backend/ingest.py:44 | The replacement of a concatenation is the concatenation of the replacements. |
| `Ingest.ReplaceNewlinesFixedPoint` | backend/ingest.py:44 | The replacement leaves a string unchanged exactly when the string has no newline. Applying it twice equals applying it once. |
| `Ingest.DocText` | backend/ingest.py:39-44 | No document text contains a newline. |
| `Ingest.DocTextWithAuthor` | backend/ingest.py:39-44 | With a string author, the text is `"`, the quote, `"`, the separator ` — `, and the author. Newlines are replaced in the quote and the author, and the fixed characters are untouched. |
| `Ingest.DocTextWithoutAuthor` | backend/ingest.py:41-44 | With a non-string or absent author, the text is the quote with newlines replaced. It is the quote itself if the quote has no newline. |
| `Ingest.DocTextWithoutNewlines` | backend/ingest.py:39-44 | A quote and a string author without newlines appear verbatim as `"<quote>" — <author>`. |
| `Ingest.AbsentLikeNull` | backend/ingest.py:31-36 | A missing key and a JSON `null` are indistinguishable once looked up: a record holding either in `Quote`, `Author` or `Category` is kept or skipped alike, gets the same text and the same metadata. |
| `Ingest.QuoteId` | backend/ingest.py:51 | An identifier is `quote_` followed by a non-empty string of decimal digits. |
| `Ingest.QuoteIdInjective` | backend/ingest.py:51 | Two positions get the same identifier exactly when they are equal. |
| `Ingest.KeptUpTo` | backend/ingest.py:30-36 | The kept positions among the first `n` records number at most `n`. Each of them is below `n`, and each names a record whose `Quote` is a string. |
| `Ingest.KeptIndices` | backend/ingest.py:30-36 | Every kept position lies inside the dataset and names a record whose `Quote` is a string. |
| `Ingest.KeptIndicesExactly` | backend/ingest.py:35-36 | A position is kept if and only if it lies inside the dataset and its record's `Quote` is a string. |
| `Ingest.KeptIndicesIncreasing` | backend/ingest.py:30-51 | Kept positions strictly increase, so output order follows input order. |
| `Ingest.KeptIndicesCount` | backend/ingest.py:35-36 | The number of outputs equals the number of records whose `Quote` is a string. |
| `Ingest.NothingKept` | backend/ingest.py:35-36 | Nothing is kept if and only if no record has a string `Quote`. |
| `Ingest.LoadQuotes` | backend/ingest.py:18-53 | The three lists have the same length, which is the number of kept records. Entry `k` comes from the `k`-th kept record `i`: its formatted text, its raw `Author` and `Category`, and the id `quote_<i>`. No text contains a newline, and the ids are pairwise distinct. |
| `Ingest.ExampleOneQuote` | backend/ingest.py:30-51 | A one-record dataset with a string quote, author and category keeps position 0 with id `quote_0` and metadata `(Oscar Wilde, wisdom)`. |
| `Ingest.ExampleOneQuoteText` | backend/ingest.py:39-44 | The text of that record is `"Be yourself." — Oscar Wilde`. |
| `Ingest.ExampleNonStringQuote` | backend/ingest.py:35-36 | A dataset whose only record has the number 42 as its `Quote` keeps nothing. |
| `Search.Zip` | backend/app.py:52-57 | Zipping gives one hit per document. |
| `Search.ZipAt` | backend/app.py:53-57 | Hit `i` is made of document `i`, metadata `i` and distance `i`. |
| `Search.ZipIgnoresExtra` | backend/app.py:52-56 | Metadata and distances beyond the number of documents do not affect the result. |
| `Search.SearchQuotes` | backend/app.py:51-59 | The response has as many results as row 0 of `documents`. Result `i` is `(documents[0][i], metadatas[0][i], distances[0][i])`, so nothing is re-sorted or filtered, and other rows are never read. If that row has at most `NResults` (3) entries, the response has at most 3 results. |

## Left out

- `main` in backend/ingest.py (lines 56-99) is left out. It reads the JSON file, creates the store client and the embedding function, clears the collection, adds the three lists and prints a count. All of that is file, network or library I/O. The model takes the parsed dataset as input. Its elements are JSON objects, seen through the keys `Quote`, `Author` and `Category` (the `.get` calls would fail on any other kind of element).
- Module-level setup in backend/app.py (lines 1-40) is left out: the web application, CORS, the store client and the collection lookup. It is framework wiring.
- The `collection.query` call (backend/app.py:46-49) is left out, together with embeddings, nearest-neighbour search and ordering by distance. These belong to the vector store. Its answer is an input of `Search.SearchQuotes`, and the metadata and distance types are opaque parameters.
- Search.SearchQuotes: the bound of three results holds only if the store returns at most `n_results` entries. The model cannot see the store, so it states the bound conditionally.
- Ingest.DocText: uses the intended separator ` — ` (U+2014). As written, line 40 of backend/ingest.py emits ` â€” ` (U+00E2, U+20AC, U+201D), so the model's text differs from the source's in those three characters.
- Strings are sequences of Dafny `char`, which are Unicode scalar values. Python `str` can also hold a lone surrogate (for instance from the JSON escape `"\ud800"`), and the model cannot represent such a quote or author.
- JSON numbers are modelled as integers. The loader never computes with them, it only carries `Author` and `Category` values through.
- frontend/app.js is not part of this model. It is browser UI and network calls.
