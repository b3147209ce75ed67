/**
 * Post normalisation (app.py lines 153-189) and url de-duplication (line 325).
 *
 * The scraper returns a list of JSON objects; each becomes a map from key to
 * `Value`. `pandas.DataFrame(items)` gives one column per key that occurs in
 * any item, with a null cell where an item lacks the key.
 */
module Rows {
  import opened Wrappers
  import opened Strings
  import Seqs

  /** A cell of the scraped data: null/NaN, an integer, a string or a nested object. */
  datatype Value = Null | Num(n: int) | Str(s: string) | Object(fields: map<string, Value>)

  type RawItem = map<string, Value>

  /**
   * A parsed `createdAt`: the calendar day as a day number, the calendar
   * month as a month number, and the hour of the day.
   */
  datatype Stamp = Stamp(day: int, month: int, hour: int)

  /** One row of the normalised frame; a column the frame lacks reads as `Null`. */
  datatype Post = Post(
    profilePicture: Value,
    text: Value,
    createdAt: Option<Stamp>,
    userName: Value,
    followers: int,
    url: Value,
    likeCount: Value,
    replyCount: Value,
    retweetCount: Value,
    quoteCount: Value,
    bookmarkCount: Value,
    viewCount: int,
    source: Value)

  /** A data frame: its column names and its rows. */
  datatype Frame = Frame(columns: seq<Column>, rows: seq<Post>)

  /** The known columns of the normalised frame. */
  datatype Column =
    | ProfilePictureColumn | TextColumn | CreatedAtColumn | UserNameColumn | FollowersColumn | UrlColumn
    | LikeCountColumn | ReplyCountColumn | RetweetCountColumn | QuoteCountColumn | BookmarkCountColumn
    | ViewCountColumn | SourceColumn
  {
    /** The column's name in the frame. */
    function Name(): (name: string) {
      match this
      case ProfilePictureColumn => "author/profilePicture"
      case TextColumn => "text"
      case CreatedAtColumn => "createdAt"
      case UserNameColumn => "author/userName"
      case FollowersColumn => "author/followers"
      case UrlColumn => "url"
      case LikeCountColumn => "likeCount"
      case ReplyCountColumn => "replyCount"
      case RetweetCountColumn => "retweetCount"
      case QuoteCountColumn => "quoteCount"
      case BookmarkCountColumn => "bookmarkCount"
      case ViewCountColumn => "viewCount"
      case SourceColumn => "source"
    }

    /** The three columns lines 168-170 add to every non-empty frame. */
    predicate IsAuthorColumn() {
      this == ProfilePictureColumn || this == UserNameColumn || this == FollowersColumn
    }
  }

  /** The columns kept, in this order (lines 177-178). */
  const ALL_COLUMNS: seq<Column> := [
    ProfilePictureColumn, TextColumn, CreatedAtColumn, UserNameColumn, FollowersColumn, UrlColumn,
    LikeCountColumn, ReplyCountColumn, RetweetCountColumn, QuoteCountColumn, BookmarkCountColumn,
    ViewCountColumn, SourceColumn]

  /** The cell of `item` in column `key`: missing keys read as null. */
  function Cell(item: RawItem, key: string): (v: Value) {
    if key in item then item[key] else Null
  }

  /** `x.get(key) if isinstance(x, dict) else None` (lines 168-170). */
  function AuthorField(author: Value, key: string): (v: Value)
    ensures author.Object? ==> v == Cell(author.fields, key)
    ensures !author.Object? ==> v == Null
  {
    match author
    case Object(fields) => Cell(fields, key)
    case _ => Null
  }

  /** `pd.to_numeric(v, errors='coerce')` on one cell: `None` where pandas gives NaN. */
  function ToNumeric(v: Value): (n: Option<int>)
    ensures v.Num? ==> n == Some(v.n)
    ensures v.Str? ==> n == ParseInt(v.s)
    ensures v.Null? || v.Object? ==> n.None?
  {
    match v
    case Num(n) => Some(n)
    case Str(s) => ParseInt(s)
    case _ => None
  }

  /**
   * `str(v)` / `astype(str)` on one cell: null (NaN) prints as "nan", an
   * integer in decimal, a string as itself. A nested object prints as
   * "{...}" here. Only a string can print as blank, and an integer's text
   * reads back as that integer.
   */
  function Render(v: Value): (text: string)
    ensures v.Str? ==> text == v.s
    ensures v.Null? ==> text == "nan"
    ensures v.Num? ==> ParseInt(text) == Some(v.n)
    ensures !v.Str? ==> text != [] && !IsBlank(text)
  {
    match v
    case Null =>
      var t := "nan";
      assert t[0] == 'n' && !IsSpace(t[0]);
      t
    case Num(n) =>
      ParseIntText(n);
      var t := IntText(n);
      assert !IsSpace(t[0]) by {
        if n >= 0 { assert IsDigit(NatText(n)[0]); }
      }
      t
    case Str(s) => s
    case Object(_) =>
      var t := "{...}";
      assert t[0] == '{';
      t
  }

  /**
   * `pd.to_numeric(..., errors='coerce').fillna(0)` (lines 173-174): numbers
   * stay, numeric strings are read, and missing or non-numeric cells become 0.
   */
  function CoerceNumber(v: Value): (n: int)
    ensures v.Num? ==> n == v.n
    ensures v.Null? || v.Object? ==> n == 0
    ensures v.Str? ==> n == (if ParseInt(v.s).Some? then ParseInt(v.s).value else 0)
  {
    ToNumeric(v).GetOr(0)
  }

  /** The text of an integer is coerced back to that integer. */
  lemma CoerceNumberText(n: int)
    ensures CoerceNumber(Str(IntText(n))) == n
  {
    ParseIntText(n);
  }

  lemma AllColumnsComplete(c: Column)
    ensures c in ALL_COLUMNS
  {
    match c
    case ProfilePictureColumn => assert ALL_COLUMNS[0] == c;
    case TextColumn => assert ALL_COLUMNS[1] == c;
    case CreatedAtColumn => assert ALL_COLUMNS[2] == c;
    case UserNameColumn => assert ALL_COLUMNS[3] == c;
    case FollowersColumn => assert ALL_COLUMNS[4] == c;
    case UrlColumn => assert ALL_COLUMNS[5] == c;
    case LikeCountColumn => assert ALL_COLUMNS[6] == c;
    case ReplyCountColumn => assert ALL_COLUMNS[7] == c;
    case RetweetCountColumn => assert ALL_COLUMNS[8] == c;
    case QuoteCountColumn => assert ALL_COLUMNS[9] == c;
    case BookmarkCountColumn => assert ALL_COLUMNS[10] == c;
    case ViewCountColumn => assert ALL_COLUMNS[11] == c;
    case SourceColumn => assert ALL_COLUMNS[12] == c;
  }

  /** The column names of `pd.DataFrame(items)`: every key of every item. */
  function ColumnNames(items: seq<RawItem>): (names: set<string>)
    ensures forall i :: 0 <= i < |items| ==> items[i].Keys <= names
  {
    if items == [] then {} else items[0].Keys + ColumnNames(items[1..])
  }

  /** Conversely, every column of the frame is a key of some item. */
  lemma {:induction false} ColumnNamesOccur(items: seq<RawItem>)
    ensures forall k :: k in ColumnNames(items) ==> exists i :: 0 <= i < |items| && k in items[i]
  {
    if items != [] {
      var rest := items[1..];
      ColumnNamesOccur(rest);
      assert ColumnNames(items) == items[0].Keys + ColumnNames(rest);
      forall k | k in ColumnNames(items) ensures exists i :: 0 <= i < |items| && k in items[i] {
        if k in items[0] {
          assert k in items[0];
        } else {
          var i :| 0 <= i < |rest| && k in rest[i];
          Seqs.DropAt(items, 1, i);
        }
      }
    }
  }

  /** Some item has the key, so the frame has that column. */
  predicate HasColumn(items: seq<RawItem>, key: string) {
    key in ColumnNames(items)
  }

  /** Whether line 181 keeps column `c`: it was added at lines 168-170 or some item has it. */
  predicate IsKept(items: seq<RawItem>, c: Column) {
    c.IsAuthorColumn() || HasColumn(items, c.Name())
  }

  /** `[col for col in all_columns if col in df.columns]` (line 181): the known columns, in their fixed order. */
  function KeptColumns(items: seq<RawItem>): (cols: seq<Column>)
    ensures Seqs.IsSubseq(cols, ALL_COLUMNS)
  {
    Seqs.Filter(ALL_COLUMNS, (c: Column) => IsKept(items, c))
  }

  /** A known column is kept exactly when the frame has it. */
  lemma KeptColumnsMember(items: seq<RawItem>, c: Column)
    ensures c in KeptColumns(items) <==> IsKept(items, c)
  {
    AllColumnsComplete(c);
  }

  /**
   * One item as a row: the author object flattened, `viewCount` and
   * `author/followers` coerced to numbers, `createdAt` parsed by `parseTime`
   * (`pd.to_datetime(errors='coerce')`, line 183).
   */
  function NormalizeItem(item: RawItem, parseTime: Value -> Option<Stamp>): (p: Post)
    ensures p.viewCount == CoerceNumber(Cell(item, "viewCount"))
    ensures p.followers == CoerceNumber(AuthorField(Cell(item, "author"), "followers"))
    ensures !Cell(item, "author").Object? ==> p.userName == Null && p.profilePicture == Null && p.followers == 0
    ensures p.text == Cell(item, "text") && p.url == Cell(item, "url")
    ensures Cell(item, "author").Object? ==>
      var fields := Cell(item, "author").fields;
      && p.userName == Cell(fields, "userName")
      && p.profilePicture == Cell(fields, "profilePicture")
      && p.followers == CoerceNumber(Cell(fields, "followers"))
    ensures p.createdAt == parseTime(Cell(item, "createdAt"))
    ensures && p.likeCount == Cell(item, "likeCount") && p.replyCount == Cell(item, "replyCount")
            && p.retweetCount == Cell(item, "retweetCount") && p.quoteCount == Cell(item, "quoteCount")
            && p.bookmarkCount == Cell(item, "bookmarkCount") && p.source == Cell(item, "source")
  {
    var author := Cell(item, "author");
    Post(
      profilePicture := AuthorField(author, "profilePicture"),
      text := Cell(item, "text"),
      createdAt := parseTime(Cell(item, "createdAt")),
      userName := AuthorField(author, "userName"),
      followers := CoerceNumber(AuthorField(author, "followers")),
      url := Cell(item, "url"),
      likeCount := Cell(item, "likeCount"),
      replyCount := Cell(item, "replyCount"),
      retweetCount := Cell(item, "retweetCount"),
      quoteCount := Cell(item, "quoteCount"),
      bookmarkCount := Cell(item, "bookmarkCount"),
      viewCount := CoerceNumber(Cell(item, "viewCount")),
      source := Cell(item, "source"))
  }

  /**
   * `get_twitter_data` after the scraper call (lines 166-189). `fetched` is
   * `None` when the scraper call raised. A frame without an `author`,
   * `viewCount` or `createdAt` column raises `KeyError` inside the `try`, so
   * that case also yields the empty frame.
   */
  function Normalize(fetched: Option<seq<RawItem>>, parseTime: Value -> Option<Stamp>): (f: Frame)
    ensures f.rows == [] <==>
      (|| fetched.None? || fetched.value == []
       || !HasColumn(fetched.value, "author")
       || !HasColumn(fetched.value, "viewCount")
       || !HasColumn(fetched.value, "createdAt"))
    ensures f.rows == [] ==> f.columns == []
    ensures f.rows != [] ==>
      && |f.rows| == |fetched.value|
      && f.columns == KeptColumns(fetched.value)
    ensures forall i :: 0 <= i < |f.rows| ==> f.rows[i] == NormalizeItem(fetched.value[i], parseTime)
  {
    match fetched
    case None => Frame([], [])
    case Some(items) =>
      if items == [] || !HasColumn(items, "author") || !HasColumn(items, "viewCount") || !HasColumn(items, "createdAt") then
        Frame([], [])
      else
        var rows := seq(|items|, i requires 0 <= i < |items| => NormalizeItem(items[i], parseTime));
        Frame(KeptColumns(items), rows)
  }

  /**
   * `drop_duplicates(subset=["url"]).reset_index(drop=True)` (line 325): at
   * most one row per url, every url still present, input order kept.
   */
  function UniqueByUrl(rows: seq<Post>): (r: seq<Post>)
    ensures Seqs.IsSubseq(r, rows)
    ensures forall i, j :: 0 <= i < j < |r| ==> r[i].url != r[j].url
    ensures forall i :: 0 <= i < |rows| ==> exists j :: 0 <= j < |r| && r[j].url == rows[i].url
    ensures |r| <= |rows|
    ensures r == [] <==> rows == []
  {
    var r := Seqs.Dedup(rows, (p: Post) => p.url);
    assert forall i :: 0 <= i < |rows| ==> rows[i].url in Seqs.Keys(rows, (p: Post) => p.url);
    Seqs.SubseqLength(r, rows);
    r
  }

  /** The row kept for each url is that url's first row. */
  lemma UniqueByUrlKeepsFirst(rows: seq<Post>)
    ensures UniqueByUrl(rows) == Seqs.FirstsFrom(rows, (p: Post) => p.url, 0)
  {
    Seqs.DedupKeepsFirsts(rows, (p: Post) => p.url);
  }
}
