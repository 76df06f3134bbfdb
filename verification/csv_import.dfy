/**
 * The bulk CSV import screen of the admin backoffice: the normaliser that
 * turns one parsed CSV row into a product draft, and the editor that holds
 * the drafts and the pending-product list the screen shows under them.
 */
module CsvImport {
  import opened Strings
  import opened Lists

  /** One row as the CSV parser hands it over: header name to cell text; a missing column is a missing key. */
  type Row = map<string, string>

  /**
   * A scalar field of a draft as the browser holds it: `undefined` when the
   * row had no such column, a string, or the number 0 that `rank` falls back to.
   */
  datatype Value = Undefined | Text(s: string) | Zero

  /** The scalar fields of a draft. */
  datatype Field = Name | Slug | Headline | Description | Logo | ReleaseDate | Website | Twitter | Discord | Rank

  /** A product draft: nine copied columns, the two list columns and the rank. */
  datatype Draft = Draft(
    name: Value, slug: Value, headline: Value, description: Value, logo: Value,
    releaseDate: Value, website: Value, twitter: Value, discord: Value,
    images: seq<string>, categories: seq<string>, rank: Value)

  /** The most categories the category picker lets a draft hold. */
  const MaxCategories := 3

  /** The separator of the `images` and `categories` columns. */
  const ListSeparator := ';'

  /** The header of the CSV column that fills a field. */
  function Header(f: Field): string {
    match f
    case Name => "name"
    case Slug => "slug"
    case Headline => "headline"
    case Description => "description"
    case Logo => "logo"
    case ReleaseDate => "releaseDate"
    case Website => "website"
    case Twitter => "twitter"
    case Discord => "discord"
    case Rank => "rank"
  }

  /** Reads one scalar field of a draft. */
  function Get(d: Draft, f: Field): Value {
    match f
    case Name => d.name
    case Slug => d.slug
    case Headline => d.headline
    case Description => d.description
    case Logo => d.logo
    case ReleaseDate => d.releaseDate
    case Website => d.website
    case Twitter => d.twitter
    case Discord => d.discord
    case Rank => d.rank
  }

  /** `draft[field] = value`: the named field takes the value, every other field is as before. */
  function With(d: Draft, f: Field, v: Value): (e: Draft)
    ensures Get(e, f) == v
    ensures forall g :: g != f ==> Get(e, g) == Get(d, g)
    ensures e.images == d.images && e.categories == d.categories
  {
    match f
    case Name => d.(name := v)
    case Slug => d.(slug := v)
    case Headline => d.(headline := v)
    case Description => d.(description := v)
    case Logo => d.(logo := v)
    case ReleaseDate => d.(releaseDate := v)
    case Website => d.(website := v)
    case Twitter => d.(twitter := v)
    case Discord => d.(discord := v)
    case Rank => d.(rank := v)
  }

  /** A scalar column copied through: its text when present, `undefined` when not. */
  function Cell(row: Row, f: Field): (v: Value)
    ensures v == Undefined <==> Header(f) !in row
    ensures Header(f) in row ==> v == Text(row[Header(f)])
  {
    if Header(f) in row then Text(row[Header(f)]) else Undefined
  }

  /** Each piece trimmed, one output per input, order kept. */
  function TrimEach(pieces: seq<string>): (r: seq<string>)
    ensures |r| == |pieces|
    ensures forall k :: 0 <= k < |r| ==> r[k] == Trim(pieces[k])
  {
    if pieces == [] then [] else [Trim(pieces[0])] + TrimEach(pieces[1..])
  }

  /**
   * A `;`-joined column: empty when the column is missing or empty,
   * otherwise its `;`-separated pieces, each trimmed.
   */
  function ListColumn(row: Row, header: string): (r: seq<string>)
    ensures r == [] <==> header !in row || row[header] == ""
    ensures header in row && row[header] != "" ==>
      |r| == Occurrences(row[header], ListSeparator) + 1
    ensures forall k :: 0 <= k < |r| ==> ListSeparator !in r[k]
    ensures forall k :: 0 <= k < |r| ==> r[k] == [] || (!IsSpace(r[k][0]) && !IsSpace(r[k][|r[k]| - 1]))
  {
    if header in row && row[header] != "" then
      SplitLength(row[header], ListSeparator);
      TrimmedPieces(Split(row[header], ListSeparator));
      TrimEach(Split(row[header], ListSeparator))
    else
      []
  }

  /** Trimmed separator-free pieces stay separator-free and have no whitespace at either end. */
  lemma TrimmedPieces(pieces: seq<string>)
    requires forall k :: 0 <= k < |pieces| ==> ListSeparator !in pieces[k]
    ensures forall k :: 0 <= k < |pieces| ==> ListSeparator !in TrimEach(pieces)[k]
    ensures forall k :: 0 <= k < |pieces| ==>
      var t := TrimEach(pieces)[k]; t == [] || (!IsSpace(t[0]) && !IsSpace(t[|t| - 1]))
  {
    var r := TrimEach(pieces);
    forall k | 0 <= k < |pieces|
      ensures ListSeparator !in r[k]
      ensures r[k] == [] || (!IsSpace(r[k][0]) && !IsSpace(r[k][|r[k]| - 1]))
    {
      TrimOnlyDrops(pieces[k], ListSeparator);
    }
  }

  /** `product.rank || 0`: the raw rank text when non-empty, otherwise the number 0. */
  function RankOf(row: Row): (v: Value)
    ensures v == Zero <==> "rank" !in row || row["rank"] == ""
    ensures v != Zero ==> v == Text(row["rank"])
  {
    if "rank" in row && row["rank"] != "" then Text(row["rank"]) else Zero
  }

  /** The normaliser: one parsed CSV row becomes one draft. */
  function Normalise(row: Row): (d: Draft)
    ensures forall f :: f != Rank ==> Get(d, f) == Cell(row, f)
    ensures d.rank == RankOf(row)
    ensures d.images == ListColumn(row, "images")
    ensures d.categories == ListColumn(row, "categories")
  {
    Draft(
      Cell(row, Name), Cell(row, Slug), Cell(row, Headline), Cell(row, Description), Cell(row, Logo),
      Cell(row, ReleaseDate), Cell(row, Website), Cell(row, Twitter), Cell(row, Discord),
      ListColumn(row, "images"), ListColumn(row, "categories"), RankOf(row))
  }

  /** Every parsed row normalised, one draft per row, in row order. */
  function NormaliseAll(rows: seq<Row>): (r: seq<Draft>)
    ensures |r| == |rows|
    ensures forall k :: 0 <= k < |r| ==> r[k] == Normalise(rows[k])
  {
    if rows == [] then [] else [Normalise(rows[0])] + NormaliseAll(rows[1..])
  }

  /**
   * A non-empty list column normalises to its pieces: re-joining the
   * untrimmed pieces gives the cell back, and each element is one piece trimmed.
   */
  lemma ListColumnPieces(row: Row, header: string)
    requires header in row && row[header] != ""
    ensures Join(Split(row[header], ListSeparator), ListSeparator) == row[header]
    ensures |ListColumn(row, header)| == |Split(row[header], ListSeparator)|
    ensures forall k :: 0 <= k < |ListColumn(row, header)| ==>
      ListColumn(row, header)[k] == Trim(Split(row[header], ListSeparator)[k])
  {
    JoinSplit(row[header], ListSeparator);
  }

  /** `categories = "A;B;C"` gives the three names; an empty cell gives none. */
  lemma NormaliseCategoriesExample()
    ensures Normalise(map["categories" := "A;B;C"]).categories == ["A", "B", "C"]
    ensures Normalise(map["categories" := ""]).categories == []
    ensures Normalise(map[]).images == []
  {
    SplitThreeNames();
  }

  lemma SplitThreeNames()
    ensures TrimEach(Split("A;B;C", ListSeparator)) == ["A", "B", "C"]
  {
    SplitThreeNamesUntrimmed();
    TrimEachFixed(["A", "B", "C"]);
  }

  lemma SplitThreeNamesUntrimmed()
    ensures Split("A;B;C", ListSeparator) == ["A", "B", "C"]
  {
    var pieces := ["A", "B", "C"];
    assert Join(pieces, ListSeparator) == "A;B;C" by {
      assert Join(pieces[2..], ListSeparator) == "C";
      assert Join(pieces[1..], ListSeparator) == "B;C";
    }
    SplitJoin(pieces, ListSeparator);
  }

  /** Pieces with no whitespace at either end come through trimming unchanged. */
  lemma TrimEachFixed(pieces: seq<string>)
    requires forall k :: 0 <= k < |pieces| ==>
      pieces[k] == [] || (!IsSpace(pieces[k][0]) && !IsSpace(pieces[k][|pieces[k]| - 1]))
    ensures TrimEach(pieces) == pieces
  {
    var r := TrimEach(pieces);
    forall k | 0 <= k < |pieces| ensures r[k] == pieces[k] {
      TrimFixed(pieces[k]);
    }
  }

  /** The normaliser does not cap categories: four names in the cell give four categories. */
  lemma NormaliseMayExceedCap()
    ensures |Normalise(map["categories" := "a;b;c;d"]).categories| > MaxCategories
  {
    var cell := "a;b;c;d";
    SplitLength(cell, ';');
    assert Occurrences(cell, ';') == 3;
  }

  /** What a category toggle did. */
  datatype ToggleOutcome = Removed | Appended | LimitReached

  /** `handleCategoryChange`'s decision for one draft's category list. */
  function ToggleOutcomeOf(cats: seq<string>, c: string): (t: ToggleOutcome)
    ensures t == Removed <==> c in cats
    ensures t == Appended <==> c !in cats && |cats| < MaxCategories
    ensures t == LimitReached <==> c !in cats && |cats| >= MaxCategories
  {
    if c in cats then Removed else if |cats| < MaxCategories then Appended else LimitReached
  }

  /**
   * The category list after toggling `c`: a present name is removed with all
   * its copies, an absent one is appended while there is room, and a full
   * list is left as it was.
   */
  function Toggled(cats: seq<string>, c: string): (r: seq<string>)
    ensures c in r <==> ToggleOutcomeOf(cats, c) == Appended
    ensures ToggleOutcomeOf(cats, c) == Removed ==> r == RemoveAll(cats, c)
    ensures ToggleOutcomeOf(cats, c) == Appended ==> r == cats + [c]
    ensures ToggleOutcomeOf(cats, c) == LimitReached ==> r == cats
    ensures |r| <= MaxCategories || |r| <= |cats|
  {
    match ToggleOutcomeOf(cats, c)
    case Removed =>
      assert |multiset(RemoveAll(cats, c))| <= |multiset(cats)|;
      RemoveAll(cats, c)
    case Appended => cats + [c]
    case LimitReached => cats
  }

  /** A toggle never takes a list of at most three categories past three. */
  lemma ToggleKeepsCap(cats: seq<string>, c: string)
    requires |cats| <= MaxCategories
    ensures |Toggled(cats, c)| <= MaxCategories
  {
  }

  /** Toggling an absent name twice restores the list, while there is room for it. */
  lemma ToggleTwice(cats: seq<string>, c: string)
    requires c !in cats && |cats| < MaxCategories
    ensures Toggled(Toggled(cats, c), c) == cats
  {
    RemoveAllAppend(cats, [c], c);
    RemoveAllSingleton(c, c);
    assert cats + [] == cats;
  }

  /** Toggling a present name twice is not an identity: it is filtered out, then appended at the end. */
  lemma ToggleTwicePresentMoves()
    ensures Toggled(Toggled(["a", "b"], "a"), "a") == ["b", "a"]
  {
    var cats := ["a", "b"];
    assert RemoveAll(cats, "a") == ["b"] by {
      assert cats == ["a"] + ["b"];
      RemoveAllAppend(["a"], ["b"], "a");
      RemoveAllSingleton("a", "a");
      RemoveAllSingleton("b", "a");
    }
  }

  /** An option is greyed out exactly when choosing it would hit the limit. */
  predicate OptionDisabled(cats: seq<string>, c: string)
    ensures OptionDisabled(cats, c) <==> ToggleOutcomeOf(cats, c) == LimitReached
  {
    |cats| >= MaxCategories && c !in cats
  }

  /**
   * The state of the import screen: the drafts under edit and the pending
   * products shown below them.
   */
  class DraftEditor {
    var drafts: seq<Draft>
    var pending: seq<Draft>

    constructor (initialPending: seq<Draft>)
      ensures drafts == [] && pending == initialPending
    {
      drafts := [];
      pending := initialPending;
    }

    /** The parser's `complete` callback: the drafts become the normalised rows. */
    method Load(rows: seq<Row>)
      modifies this
      ensures drafts == NormaliseAll(rows)
      ensures pending == old(pending)
    {
      drafts := NormaliseAll(rows);
    }

    /**
     * `handleFieldChange`: the field of the draft at `index` takes the typed
     * text. An index with no draft makes the handler fail before the state
     * is written, so nothing changes.
     */
    method EditField(index: int, f: Field, text: string) returns (ok: bool)
      modifies this
      ensures ok <==> 0 <= index < |old(drafts)|
      ensures ok ==> drafts == old(drafts)[index := With(old(drafts)[index], f, Text(text))]
      ensures !ok ==> drafts == old(drafts)
      ensures pending == old(pending)
    {
      ok := 0 <= index < |drafts|;
      if ok {
        drafts := drafts[index := With(drafts[index], f, Text(text))];
      }
    }

    /** `handleImagesUpload`: the images of the draft at `index` become the uploaded URLs. */
    method SetImages(index: int, urls: seq<string>) returns (ok: bool)
      modifies this
      ensures ok <==> 0 <= index < |old(drafts)|
      ensures ok ==> drafts == old(drafts)[index := old(drafts)[index].(images := urls)]
      ensures !ok ==> drafts == old(drafts)
      ensures pending == old(pending)
    {
      ok := 0 <= index < |drafts|;
      if ok {
        drafts := drafts[index := drafts[index].(images := urls)];
      }
    }

    /** `handleLogoUpload`: the logo of the draft at `index` becomes the uploaded URL. */
    method SetLogo(index: int, url: string) returns (ok: bool)
      modifies this
      ensures ok <==> 0 <= index < |old(drafts)|
      ensures ok ==> drafts == old(drafts)[index := With(old(drafts)[index], Logo, Text(url))]
      ensures !ok ==> drafts == old(drafts)
      ensures pending == old(pending)
    {
      ok := 0 <= index < |drafts|;
      if ok {
        drafts := drafts[index := With(drafts[index], Logo, Text(url))];
      }
    }

    /**
     * `handleCategoryChange`: toggles `c` in the categories of the draft at
     * `index`; `limit` reports the warning shown when the list is full.
     */
    method ToggleCategory(index: int, c: string) returns (ok: bool, limit: bool)
      modifies this
      ensures ok <==> 0 <= index < |old(drafts)|
      ensures ok ==> drafts == old(drafts)[index := old(drafts)[index].(categories := Toggled(old(drafts)[index].categories, c))]
      ensures ok ==> (limit <==> ToggleOutcomeOf(old(drafts)[index].categories, c) == LimitReached)
      ensures !ok ==> drafts == old(drafts) && !limit
      ensures pending == old(pending)
    {
      ok := 0 <= index < |drafts|;
      limit := false;
      if ok {
        var cats := drafts[index].categories;
        limit := ToggleOutcomeOf(cats, c) == LimitReached;
        drafts := drafts[index := drafts[index].(categories := Toggled(cats, c))];
      }
    }

    /** `handleRemoveCategory`: every copy of `c` leaves the categories of the draft at `index`. */
    method RemoveCategory(index: int, c: string) returns (ok: bool)
      modifies this
      ensures ok <==> 0 <= index < |old(drafts)|
      ensures ok ==> drafts == old(drafts)[index := old(drafts)[index].(categories := RemoveAll(old(drafts)[index].categories, c))]
      ensures !ok ==> drafts == old(drafts)
      ensures pending == old(pending)
    {
      ok := 0 <= index < |drafts|;
      if ok {
        drafts := drafts[index := drafts[index].(categories := RemoveAll(drafts[index].categories, c))];
      }
    }

    /** `handleRemoveRow`: the draft at `index` leaves the list and later drafts move up one place. */
    method RemoveRow(index: int)
      modifies this
      ensures drafts == RemoveIndex(old(drafts), index)
      ensures pending == old(pending)
    {
      drafts := RemoveIndex(drafts, index);
    }

    /**
     * `handleBulkImport`: `accepted` is whether the import request came back
     * ok. On success the drafts join the end of the pending list and the
     * draft list empties; a failed or thrown request changes nothing.
     */
    method BulkImport(accepted: bool) returns (submitted: seq<Draft>)
      modifies this
      ensures submitted == old(drafts)
      ensures accepted ==> pending == old(pending) + old(drafts) && drafts == []
      ensures !accepted ==> pending == old(pending) && drafts == old(drafts)
    {
      submitted := drafts;
      if accepted {
        pending := pending + submitted;
        drafts := [];
      }
    }
  }

  /** A single-field edit leaves every other draft and every other field of the edited draft as it was. */
  lemma EditTouchesOneField(ds: seq<Draft>, index: nat, f: Field, v: Value)
    requires index < |ds|
    ensures var es := ds[index := With(ds[index], f, v)];
      |es| == |ds| &&
      (forall j :: 0 <= j < |ds| && j != index ==> es[j] == ds[j]) &&
      (forall g :: g != f ==> Get(es[index], g) == Get(ds[index], g)) &&
      es[index].images == ds[index].images && es[index].categories == ds[index].categories
  {
  }

  /** Removing row `i` puts the old row `i + 1` at position `i`. */
  lemma RemoveRowShifts(ds: seq<Draft>, i: nat)
    requires i + 1 < |ds|
    ensures RemoveIndex(ds, i)[i] == ds[i + 1]
  {
  }
}
