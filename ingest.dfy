/** The quote loader of the ingest pipeline (`load_quotes` in
    backend/ingest.py): it turns the parsed dataset, a list of quote
    records, into the three parallel lists handed to the vector store:
    document texts, metadata entries and identifiers. */
module Ingest {
  import opened Json
  import opened Numerals

  /** One element of the dataset: a JSON object, seen through the three keys
      the loader reads. Other keys are never looked at. */
  datatype Record = Record(quote: Field, author: Field, category: Field)

  /** The metadata stored beside each document: the raw looked-up values. */
  datatype Metadata = Metadata(author: Value, category: Value)

  /** The separator between the quoted text and its author: a space, an em
      dash (U+2014) and a space. */
  const Separator: string := " \U{2014} "

  const IdPrefix: string := "quote_"

  // ---------------------------------------------------------------------
  // Text formatting
  // ---------------------------------------------------------------------

  /** Python's `s.replace("\n", " ")`: every newline becomes a space and
      every other character stays where it was. */
  function ReplaceNewlines(s: string): (r: string)
    ensures |r| == |s|
    ensures forall k :: 0 <= k < |s| ==> r[k] == (if s[k] == '\n' then ' ' else s[k])
  {
    if s == [] then [] else [if s[0] == '\n' then ' ' else s[0]] + ReplaceNewlines(s[1..])
  }

  /** The display text of a quote: `"<quote>" — <author>` when the author is
      a string, the quote alone otherwise; newlines become spaces. */
  function DocText(quote: string, author: Value): (r: string)
    ensures '\n' !in r
  {
    var text := if author.Str? then "\"" + quote + "\"" + Separator + author.s else quote;
    ReplaceNewlines(text)
  }

  /** A record is kept exactly when its `Quote` is a string. */
  predicate Kept(r: Record) {
    IsString(r.quote)
  }

  function Document(r: Record): string
    requires Kept(r)
  {
    DocText(Get(r.quote).s, Get(r.author))
  }

  function MetadataOf(r: Record): Metadata {
    Metadata(Get(r.author), Get(r.category))
  }

  /** The identifier of the record at position `i` of the dataset. */
  function QuoteId(i: nat): (id: string)
    ensures |id| > |IdPrefix| && id[..|IdPrefix|] == IdPrefix
    ensures AllDigits(id[|IdPrefix|..])
  {
    IdPrefix + Decimal(i)
  }

  // ---------------------------------------------------------------------
  // Which records are kept
  // ---------------------------------------------------------------------

  /** The positions among the first `n` records whose `Quote` is a string,
      in input order. */
  function KeptUpTo(data: seq<Record>, n: nat): (r: seq<nat>)
    requires n <= |data|
    ensures |r| <= n
    ensures forall k :: 0 <= k < |r| ==> r[k] < n && Kept(data[r[k]])
  {
    if n == 0 then []
    else KeptUpTo(data, n - 1) + (if Kept(data[n - 1]) then [n - 1] else [])
  }

  /** The positions of all kept records, in input order: the k-th output of
      the loader comes from record `KeptIndices(data)[k]`. */
  function KeptIndices(data: seq<Record>): (r: seq<nat>)
    ensures forall k :: 0 <= k < |r| ==> r[k] < |data| && Kept(data[r[k]])
  {
    KeptUpTo(data, |data|)
  }

  // ---------------------------------------------------------------------
  // The loader
  // ---------------------------------------------------------------------

  /** `load_quotes` on an already parsed dataset. */
  method LoadQuotes(data: seq<Record>) returns (docs: seq<string>, metadatas: seq<Metadata>, ids: seq<string>)
    ensures |docs| == |metadatas| == |ids| == |KeptIndices(data)|
    ensures forall k :: 0 <= k < |docs| ==>
      docs[k] == Document(data[KeptIndices(data)[k]]) &&
      metadatas[k] == MetadataOf(data[KeptIndices(data)[k]]) &&
      ids[k] == QuoteId(KeptIndices(data)[k])
    ensures forall k :: 0 <= k < |docs| ==> '\n' !in docs[k]
    ensures forall k1, k2 :: 0 <= k1 < k2 < |ids| ==> ids[k1] != ids[k2]
  {
    docs, metadatas, ids := [], [], [];
    for i := 0 to |data|
      invariant |docs| == |metadatas| == |ids| == |KeptUpTo(data, i)|
      invariant forall k :: 0 <= k < |docs| ==>
        docs[k] == Document(data[KeptUpTo(data, i)[k]]) &&
        metadatas[k] == MetadataOf(data[KeptUpTo(data, i)[k]]) &&
        ids[k] == QuoteId(KeptUpTo(data, i)[k])
    {
      var item := data[i];
      var quote := Get(item.quote);
      var author := Get(item.author);
      var category := Get(item.category);

      if !quote.Str? {
        continue;
      }

      var text := if author.Str? then "\"" + quote.s + "\"" + Separator + author.s else quote.s;
      text := ReplaceNewlines(text);

      docs := docs + [text];
      metadatas := metadatas + [Metadata(author, category)];
      ids := ids + [IdPrefix + Decimal(i)];
    }
    var kept := KeptIndices(data);
    forall k1, k2 | 0 <= k1 < k2 < |ids| ensures ids[k1] != ids[k2] {
      KeptIndicesIncreasing(data);
      QuoteIdInjective(kept[k1], kept[k2]);
    }
  }

  // ---------------------------------------------------------------------
  // Properties
  // ---------------------------------------------------------------------

  /** Replacing newlines distributes over concatenation. */
  lemma {:induction false} ReplaceNewlinesAppend(a: string, b: string)
    ensures ReplaceNewlines(a + b) == ReplaceNewlines(a) + ReplaceNewlines(b)
  {
    var l, r := ReplaceNewlines(a + b), ReplaceNewlines(a) + ReplaceNewlines(b);
    assert |l| == |r|;
    forall k | 0 <= k < |l| ensures l[k] == r[k] {
      if k < |a| {
        assert (a + b)[k] == a[k];
      } else {
        assert (a + b)[k] == b[k - |a|];
      }
    }
  }

  /** The replacement changes a string exactly when it holds a newline,
      and applying it twice is the same as applying it once. */
  lemma ReplaceNewlinesFixedPoint(s: string)
    ensures ReplaceNewlines(s) == s <==> '\n' !in s
    ensures ReplaceNewlines(ReplaceNewlines(s)) == ReplaceNewlines(s)
  {
    if '\n' in s {
      var k :| 0 <= k < |s| && s[k] == '\n';
      assert ReplaceNewlines(s)[k] != s[k];
    } else {
      forall k | 0 <= k < |s| ensures ReplaceNewlines(s)[k] == s[k] {
        assert s[k] in s;
      }
    }
    var once := ReplaceNewlines(s);
    forall k | 0 <= k < |once| ensures ReplaceNewlines(once)[k] == once[k] {
    }
  }

  /** The text of a quote with a string author is `"`, the quote, `"`, the
      separator and the author, where only the quote and the author can have
      had newlines to replace. */
  lemma DocTextWithAuthor(quote: string, author: string)
    ensures DocText(quote, Str(author)) ==
      "\"" + ReplaceNewlines(quote) + "\"" + Separator + ReplaceNewlines(author)
  {
    var mark := "\"";
    ReplaceNewlinesAppend(mark + quote + mark + Separator, author);
    ReplaceNewlinesAppend(mark + quote + mark, Separator);
    ReplaceNewlinesAppend(mark + quote, mark);
    ReplaceNewlinesAppend(mark, quote);
    ReplaceNewlinesFixedPoint(mark);
    ReplaceNewlinesFixedPoint(Separator);
  }

  /** Without a string author the text is the quote, newlines replaced;
      a quote without newlines is used as it is. */
  lemma DocTextWithoutAuthor(quote: string, author: Value)
    requires !author.Str?
    ensures DocText(quote, author) == ReplaceNewlines(quote)
    ensures '\n' !in quote ==> DocText(quote, author) == quote
  {
    ReplaceNewlinesFixedPoint(quote);
  }

  /** A quote and an author without newlines appear in the text as they are. */
  lemma DocTextWithoutNewlines(quote: string, author: string)
    requires '\n' !in quote && '\n' !in author
    ensures DocText(quote, Str(author)) == "\"" + quote + "\"" + Separator + author
  {
    ReplaceNewlinesFixedPoint(quote);
    ReplaceNewlinesFixedPoint(author);
    DocTextWithAuthor(quote, author);
  }

  /** A missing key and a JSON `null` cannot be told apart: whichever of the
      two a record holds in `Quote`, `Author` or `Category`, the record is
      kept or skipped alike, gets the same text and the same metadata. */
  lemma AbsentLikeNull(r: Record, s: Record)
    requires r.quote == Absent || r.author == Absent || r.category == Absent
    requires s == Record(
      if r.quote == Absent then Present(Null) else r.quote,
      if r.author == Absent then Present(Null) else r.author,
      if r.category == Absent then Present(Null) else r.category)
    ensures Kept(r) <==> Kept(s)
    ensures Kept(r) ==> Document(r) == Document(s)
    ensures MetadataOf(r) == MetadataOf(s)
  {
    assert Get(r.quote) == Get(s.quote);
    assert Get(r.author) == Get(s.author);
    assert Get(r.category) == Get(s.category);
  }

  /** Identifiers are distinct exactly when the positions are. */
  lemma QuoteIdInjective(i: nat, j: nat)
    ensures QuoteId(i) == QuoteId(j) <==> i == j
  {
    if QuoteId(i) == QuoteId(j) {
      assert QuoteId(i)[|IdPrefix|..] == Decimal(i);
      assert QuoteId(j)[|IdPrefix|..] == Decimal(j);
      DecimalInjective(i, j);
    }
  }

  lemma {:induction false} KeptUpToIncreasing(data: seq<Record>, n: nat)
    requires n <= |data|
    ensures forall a, b :: 0 <= a < b < |KeptUpTo(data, n)| ==> KeptUpTo(data, n)[a] < KeptUpTo(data, n)[b]
  {
    if n > 0 {
      KeptUpToIncreasing(data, n - 1);
    }
  }

  /** Output order follows input order: kept positions strictly increase,
      so the k-th output comes from the k-th kept record. */
  lemma KeptIndicesIncreasing(data: seq<Record>)
    ensures forall a, b :: 0 <= a < b < |KeptIndices(data)| ==> KeptIndices(data)[a] < KeptIndices(data)[b]
  {
    KeptUpToIncreasing(data, |data|);
  }

  lemma {:induction false} KeptUpToComplete(data: seq<Record>, n: nat, i: nat)
    requires i < n <= |data|
    requires Kept(data[i])
    ensures i in KeptUpTo(data, n)
  {
    if i < n - 1 {
      KeptUpToComplete(data, n - 1, i);
    }
  }

  /** A record yields output exactly when its `Quote` is a string; skipped
      records keep their position, so identifiers have gaps. */
  lemma KeptIndicesExactly(data: seq<Record>, i: nat)
    ensures i in KeptIndices(data) <==> i < |data| && Kept(data[i])
  {
    if i < |data| && Kept(data[i]) {
      KeptUpToComplete(data, |data|, i);
    }
  }

  /** The positions among the first `n` records whose `Quote` is a string. */
  ghost function KeptSet(data: seq<Record>, n: nat): set<nat>
    requires n <= |data|
  {
    set i: nat | i < n && Kept(data[i])
  }

  lemma {:induction false} KeptUpToCount(data: seq<Record>, n: nat)
    requires n <= |data|
    ensures |KeptUpTo(data, n)| == |KeptSet(data, n)|
  {
    if n == 0 {
      assert KeptSet(data, n) == {};
    } else {
      KeptUpToCount(data, n - 1);
      if Kept(data[n - 1]) {
        assert KeptSet(data, n) == KeptSet(data, n - 1) + {n - 1};
      } else {
        assert KeptSet(data, n) == KeptSet(data, n - 1);
      }
    }
  }

  /** The number of outputs is the number of records whose `Quote` is a
      string. */
  lemma KeptIndicesCount(data: seq<Record>)
    ensures |KeptIndices(data)| == |KeptSet(data, |data|)|
  {
    KeptUpToCount(data, |data|);
  }

  /** A dataset none of whose records has a string `Quote` yields three
      empty lists, and only such a dataset does. */
  lemma NothingKept(data: seq<Record>)
    ensures KeptIndices(data) == [] <==> forall i :: 0 <= i < |data| ==> !Kept(data[i])
  {
    var r := KeptIndices(data);
    if r != [] {
      assert 0 <= r[0] < |data| && Kept(data[r[0]]);
    } else {
      forall i | 0 <= i < |data| ensures !Kept(data[i]) {
        KeptIndicesExactly(data, i);
      }
    }
  }

  /** The one record of the dataset `[{"Quote": "Be yourself.", "Author":
      "Oscar Wilde", "Category": "wisdom"}]`. */
  function OscarWilde(): Record {
    Record(Present(Str("Be yourself.")), Present(Str("Oscar Wilde")), Present(Str("wisdom")))
  }

  /** That dataset gives one document, with id `quote_0` and the record's
      author and category as metadata. */
  lemma ExampleOneQuote()
    ensures KeptIndices([OscarWilde()]) == [0]
    ensures MetadataOf(OscarWilde()) == Metadata(Str("Oscar Wilde"), Str("wisdom"))
    ensures QuoteId(0) == "quote_0"
  {
    assert Decimal(0) == "0";
  }

  /** Its text is `"Be yourself." — Oscar Wilde`. */
  lemma ExampleOneQuoteText()
    ensures DocText("Be yourself.", Str("Oscar Wilde")) == "\"Be yourself.\"" + Separator + "Oscar Wilde"
  {
    DocTextWithoutNewlines("Be yourself.", "Oscar Wilde");
  }

  /** The dataset `[{"Quote": 42}]` gives no documents at all. */
  lemma ExampleNonStringQuote()
    ensures KeptIndices([Record(Present(Number(42)), Absent, Absent)]) == []
  {
  }
}
