/**
 * The summaries computed from the labelled frame (app.py lines 384-523):
 * the ten most viewed posts, the ten users with most followers, the count
 * and share of each sentiment, the posts of one sentiment, and the number
 * of posts per time bucket.
 */
module Aggregate {
  import opened Wrappers
  import opened Strings
  import opened Seqs
  import opened Rows
  import opened Labels

  /** Both rankings keep ten entries (`head(10)`, lines 390 and 432). */
  const TOP_N := 10

  /**
   * Lines 386-390. `viewCount` is never null after normalisation, so
   * `dropna` keeps every row. The result holds the ten rows with most views
   * (fewer when there are fewer rows), most viewed first, and no row left
   * out has more views than a row kept. The order among equal view counts
   * is not fixed.
   */
  function TopViews(rows: seq<Row>): (top: seq<Row>)
    ensures |top| == Min(TOP_N, |rows|)
    ensures SortedDesc(top, (r: Row) => r.post.viewCount)
    ensures multiset(top) <= multiset(rows)
    ensures forall x, y :: x in multiset(rows) - multiset(top) && y in top ==> x.post.viewCount <= y.post.viewCount
  {
    Top(rows, (r: Row) => r.post.viewCount, TOP_N)
  }

  /** One line of the users table (lines 426-429). */
  datatype UserStat = UserStat(userName: Value, followers: int, profilePicture: Value)

  /** The `max` aggregate: the largest follower count among the posts by `name`. */
  function MaxFollowers(posts: seq<Post>, name: Value): (m: int)
    requires exists i :: 0 <= i < |posts| && posts[i].userName == name
    ensures exists i :: 0 <= i < |posts| && posts[i].userName == name && posts[i].followers == m
    ensures forall i :: 0 <= i < |posts| && posts[i].userName == name ==> posts[i].followers <= m
  {
    var rest := posts[1..];
    if posts[0].userName != name then
      assert exists i :: 0 <= i < |rest| && rest[i].userName == name by {
        var k :| 0 <= k < |posts| && posts[k].userName == name;
        assert rest[k - 1] == posts[k];
      }
      MaxFollowers(rest, name)
    else if exists i :: 0 <= i < |rest| && rest[i].userName == name then
      var m := MaxFollowers(rest, name);
      if posts[0].followers >= m then posts[0].followers else m
    else
      posts[0].followers
  }

  /**
   * The `first` aggregate: the first non-null profile picture among the
   * posts by `name`, or null when all of them are null (`first` skips nulls).
   */
  function FirstPicture(posts: seq<Post>, name: Value): (pic: Value)
    ensures pic == Null <==>
      forall i :: 0 <= i < |posts| && posts[i].userName == name ==> posts[i].profilePicture == Null
    ensures pic != Null ==>
      exists i :: 0 <= i < |posts| && posts[i].userName == name && posts[i].profilePicture == pic &&
        forall j :: 0 <= j < i && posts[j].userName == name ==> posts[j].profilePicture == Null
  {
    if posts == [] then Null
    else if posts[0].userName == name && posts[0].profilePicture != Null then posts[0].profilePicture
    else
      var pic := FirstPicture(posts[1..], name);
      assert forall i :: 1 <= i < |posts| ==> posts[i] == posts[1..][i - 1];
      if pic != Null then
        var k :| 0 <= k < |posts[1..]| && posts[1..][k].userName == name && posts[1..][k].profilePicture == pic &&
          forall j :: 0 <= j < k && posts[1..][j].userName == name ==> posts[1..][j].profilePicture == Null;
        assert posts[k + 1].userName == name && posts[k + 1].profilePicture == pic;
        pic
      else
        pic
  }

  /** The `author/userName` column. */
  function UserNamesOf(posts: seq<Post>): (names: seq<Value>)
    ensures |names| == |posts|
    ensures forall i :: 0 <= i < |posts| ==> names[i] == posts[i].userName
  {
    seq(|posts|, i requires 0 <= i < |posts| => posts[i].userName)
  }

  /** The group keys: every non-null user name, once each (`dropna` then `groupby`). */
  function UserNames(posts: seq<Post>): (names: seq<Value>)
    ensures forall i, j :: 0 <= i < j < |names| ==> names[i] != names[j]
    ensures forall j :: 0 <= j < |names| ==>
      names[j] != Null && exists i :: 0 <= i < |posts| && posts[i].userName == names[j]
    ensures forall i :: 0 <= i < |posts| && posts[i].userName != Null ==> posts[i].userName in names
  {
    var named := Filter(UserNamesOf(posts), (v: Value) => v != Null);
    NonNullNames(posts, named);
    var names := Distinct(named);
    assert forall j :: 0 <= j < |names| ==> names[j] in names;
    names
  }

  lemma NonNullNames(posts: seq<Post>, named: seq<Value>)
    requires named == Filter(UserNamesOf(posts), (v: Value) => v != Null)
    ensures forall v :: v in named <==> v != Null && exists i :: 0 <= i < |posts| && posts[i].userName == v
  {
    var all := UserNamesOf(posts);
    forall v ensures v in named <==> v != Null && exists i :: 0 <= i < |posts| && posts[i].userName == v {
      if v in named {
        var j :| 0 <= j < |named| && named[j] == v;
        assert named[j] in all;
      }
      if v != Null && exists i :: 0 <= i < |posts| && posts[i].userName == v {
        var i :| 0 <= i < |posts| && posts[i].userName == v;
        assert all[i] == v;
      }
    }
  }

  /**
   * `u` aggregates the posts of a non-null user name that has posts: the
   * largest follower count and the first non-null picture among them.
   */
  predicate IsUserLine(posts: seq<Post>, u: UserStat) {
    u.userName != Null &&
    (exists k :: 0 <= k < |posts| && posts[k].userName == u.userName) &&
    u.followers == MaxFollowers(posts, u.userName) &&
    u.profilePicture == FirstPicture(posts, u.userName)
  }

  /**
   * Lines 423-429: one line per distinct non-null user name (see
   * `UserTableKeys`), holding the largest follower count of that user's
   * posts and the first non-null profile picture among them.
   */
  function UserTable(posts: seq<Post>): (users: seq<UserStat>)
    ensures forall i :: 0 <= i < |users| ==> IsUserLine(posts, users[i])
  {
    UserLines(posts, UserNames(posts))
  }

  /** The users table has one line per distinct non-null user name of the posts. */
  lemma UserTableKeys(posts: seq<Post>)
    ensures forall i, j :: 0 <= i < j < |UserTable(posts)| ==> UserTable(posts)[i].userName != UserTable(posts)[j].userName
    ensures forall k :: 0 <= k < |posts| && posts[k].userName != Null ==>
      exists i :: 0 <= i < |UserTable(posts)| && UserTable(posts)[i].userName == posts[k].userName
  {
    var names := UserNames(posts);
    var users := UserTable(posts);
    assert forall i :: 0 <= i < |users| ==> users[i].userName == names[i];
    forall k | 0 <= k < |posts| && posts[k].userName != Null
      ensures exists i :: 0 <= i < |users| && users[i].userName == posts[k].userName
    {
      var i :| 0 <= i < |names| && names[i] == posts[k].userName;
      assert users[i].userName == posts[k].userName;
    }
  }

  /** One aggregated line per name of `names`, in the same order. */
  function UserLines(posts: seq<Post>, names: seq<Value>): (users: seq<UserStat>)
    requires forall j :: 0 <= j < |names| ==>
      names[j] != Null && exists i :: 0 <= i < |posts| && posts[i].userName == names[j]
    ensures |users| == |names|
    ensures forall j :: 0 <= j < |names| ==> users[j].userName == names[j] && IsUserLine(posts, users[j])
  {
    if names == [] then []
    else
      var name := names[0];
      [UserStat(name, MaxFollowers(posts, name), FirstPicture(posts, name))] + UserLines(posts, names[1..])
  }

  /**
   * Line 431: the ten users with most followers, most followed first; no
   * user left out has more followers than a user kept.
   */
  function TopUsers(posts: seq<Post>): (top: seq<UserStat>)
    ensures |top| == Min(TOP_N, |UserTable(posts)|)
    ensures SortedDesc(top, (u: UserStat) => u.followers)
    ensures multiset(top) <= multiset(UserTable(posts))
    ensures forall x, y :: x in multiset(UserTable(posts)) - multiset(top) && y in top ==> x.followers <= y.followers
    ensures forall i, j :: 0 <= i < j < |top| ==> top[i].userName != top[j].userName
    ensures forall i :: 0 <= i < |top| ==> IsUserLine(posts, top[i])
  {
    var top := Top(UserTable(posts), (u: UserStat) => u.followers, TOP_N);
    SubTableLines(posts, top);
    top
  }

  /** Any selection of lines from the users table keeps distinct names and valid lines. */
  lemma SubTableLines(posts: seq<Post>, top: seq<UserStat>)
    requires multiset(top) <= multiset(UserTable(posts))
    ensures forall i, j :: 0 <= i < j < |top| ==> top[i].userName != top[j].userName
    ensures forall i :: 0 <= i < |top| ==> IsUserLine(posts, top[i])
  {
    var users := UserTable(posts);
    UserTableKeys(posts);
    assert DistinctKeys(users, (u: UserStat) => u.userName);
    DistinctKeysSubmultiset(users, top, (u: UserStat) => u.userName);
    forall i | 0 <= i < |top| ensures IsUserLine(posts, top[i]) {
      assert top[i] in multiset(top);
      assert top[i] in multiset(users);
    }
  }

  /**
   * `value_counts()` on the sentiment column (line 449): each distinct
   * label once, with how many rows carry it, most frequent first; the counts
   * add up to the number of rows.
   */
  function SentimentCounts(labels: seq<string>): (counts: seq<(string, nat)>)
    ensures SortedDesc(counts, (p: (string, nat)) => p.1)
    ensures forall i, j :: 0 <= i < j < |counts| ==> counts[i].0 != counts[j].0
    ensures forall i :: 0 <= i < |counts| ==> counts[i].0 in labels && counts[i].1 == multiset(labels)[counts[i].0]
    ensures forall i :: 0 <= i < |counts| ==> counts[i].1 >= 1
    ensures forall x :: x in labels ==> exists i :: 0 <= i < |counts| && counts[i].0 == x
    ensures SumCounts(counts) == |labels|
  {
    SortedTally(labels, (p: (string, nat)) => p.1)
  }

  function SumReals(s: seq<real>): (sum: real) {
    if s == [] then 0.0 else s[0] + SumReals(s[1..])
  }

  /** Line 453: each count as a percentage of the sum of the counts. */
  function Percentages(counts: seq<(string, nat)>): (pct: seq<real>)
    ensures |pct| == |counts|
  {
    SharesOf(counts, SumCounts(counts))
  }

  /** Each count as a percentage of `total`; a zero total gives zeros (never produced by a tally). */
  function SharesOf(counts: seq<(string, nat)>, total: nat): (pct: seq<real>)
    ensures |pct| == |counts|
  {
    Scaled(counts, if total == 0 then 0.0 else 100.0 / total as real)
  }

  /** Every count times `k`. */
  function Scaled(counts: seq<(string, nat)>, k: real): (s: seq<real>)
    ensures |s| == |counts|
    ensures forall i :: 0 <= i < |counts| ==> s[i] == counts[i].1 as real * k
  {
    if counts == [] then [] else [counts[0].1 as real * k] + Scaled(counts[1..], k)
  }

  /** Scaling every count by the same factor scales their sum. */
  lemma {:induction false} ScaledSum(counts: seq<(string, nat)>, k: real)
    ensures SumReals(Scaled(counts, k)) == SumCounts(counts) as real * k
  {
    if counts != [] {
      var rest := counts[1..];
      ScaledSum(rest, k);
      var h := counts[0].1 as real;
      var r := SumCounts(rest) as real;
      assert Scaled(counts, k)[1..] == Scaled(rest, k);
      assert SumReals(Scaled(counts, k)) == h * k + r * k;
      assert (h + r) * k == h * k + r * k;
    }
  }

  /** The percentages of a count table with a positive total add up to 100. */
  lemma PercentagesSum(counts: seq<(string, nat)>)
    requires SumCounts(counts) > 0
    ensures SumReals(Percentages(counts)) == 100.0
  {
    var total := SumCounts(counts) as real;
    ScaledSum(counts, 100.0 / total);
    assert total * (100.0 / total) == 100.0;
  }

  /** Each percentage lies between 0 and 100. */
  lemma PercentagesBounds(counts: seq<(string, nat)>, i: nat)
    requires i < |counts|
    ensures 0.0 <= Percentages(counts)[i] <= 100.0
  {
    CountAtMostSum(counts, i);
    SharesBounds(counts, SumCounts(counts), i);
  }

  lemma SharesBounds(counts: seq<(string, nat)>, total: nat, i: nat)
    requires i < |counts| && counts[i].1 <= total
    ensures 0.0 <= SharesOf(counts, total)[i] <= 100.0
  {
    if total != 0 {
      var k := 100.0 / total as real;
      var a := counts[i].1 as real;
      assert SharesOf(counts, total)[i] == a * k;
      ScaledBelow(a, total as real, k);
    }
  }

  /** Scaling by `100 / total` maps `[0, total]` into `[0, 100]`. */
  lemma ScaledBelow(a: real, total: real, k: real)
    requires 0.0 <= a <= total && total > 0.0 && k == 100.0 / total
    ensures 0.0 <= a * k <= 100.0
  {
    assert total * k == 100.0;
    assert (total - a) * k >= 0.0;
  }

  /** No single count exceeds the total. */
  lemma {:induction false} CountAtMostSum(counts: seq<(string, nat)>, i: nat)
    requires i < |counts|
    ensures counts[i].1 <= SumCounts(counts)
  {
    if i > 0 {
      CountAtMostSum(counts[1..], i - 1);
    }
  }

  /**
   * Line 490: the texts, as strings and in row order, of the rows labelled
   * `sentiment`. There are as many as rows carrying that label.
   */
  function LabelTexts(rows: seq<Row>, sentiment: string): (texts: seq<string>)
    ensures |texts| == multiset(LabelsOf(rows))[sentiment]
    ensures forall j :: 0 <= j < |texts| ==> texts[j] in TextsLabelled(rows, sentiment)
  {
    if rows == [] then []
    else
      assert LabelsOf(rows) == [rows[0].sentiment] + LabelsOf(rows[1..]);
      var rest := LabelTexts(rows[1..], sentiment);
      TextsLabelledTail(rows, sentiment);
      if rows[0].sentiment == sentiment then [Render(rows[0].post.text)] + rest else rest
  }

  /** The subset keeps row order: the texts of `a + b` are those of `a`, then those of `b`. */
  lemma {:induction false} LabelTextsAppend(a: seq<Row>, b: seq<Row>, sentiment: string)
    ensures LabelTexts(a + b, sentiment) == LabelTexts(a, sentiment) + LabelTexts(b, sentiment)
  {
    if a == [] {
      assert a + b == b;
    } else {
      assert (a + b)[0] == a[0];
      assert (a + b)[1..] == a[1..] + b;
      LabelTextsAppend(a[1..], b, sentiment);
    }
  }

  /** A single row contributes its text exactly when it carries the label. */
  lemma LabelTextsOne(r: Row, sentiment: string)
    ensures LabelTexts([r], sentiment) == if r.sentiment == sentiment then [Render(r.post.text)] else []
  {
    assert [r][1..] == [];
  }

  /** The rendered texts of the rows labelled `sentiment`. */
  function TextsLabelled(rows: seq<Row>, sentiment: string): (texts: set<string>) {
    set r | r in rows && r.sentiment == sentiment :: Render(r.post.text)
  }

  lemma TextsLabelledTail(rows: seq<Row>, sentiment: string)
    requires rows != []
    ensures TextsLabelled(rows[1..], sentiment) <= TextsLabelled(rows, sentiment)
    ensures rows[0].sentiment == sentiment ==> Render(rows[0].post.text) in TextsLabelled(rows, sentiment)
  {
    forall x | x in TextsLabelled(rows[1..], sentiment) ensures x in TextsLabelled(rows, sentiment) {
      var r :| r in rows[1..] && r.sentiment == sentiment && x == Render(r.post.text);
      assert r in rows;
    }
  }

  /**
   * The number of posts shown for a sentiment (line 492) agrees with its
   * count in the distribution (line 449), and a sentiment missing from the
   * distribution has no posts.
   */
  lemma LabelTextsMatchCounts(rows: seq<Row>, sentiment: string)
    ensures forall i :: 0 <= i < |SentimentCounts(LabelsOf(rows))| && SentimentCounts(LabelsOf(rows))[i].0 == sentiment ==>
      |LabelTexts(rows, sentiment)| == SentimentCounts(LabelsOf(rows))[i].1
    ensures (forall i :: 0 <= i < |SentimentCounts(LabelsOf(rows))| ==> SentimentCounts(LabelsOf(rows))[i].0 != sentiment) ==>
      LabelTexts(rows, sentiment) == []
  {
    var labels := LabelsOf(rows);
    var counts := SentimentCounts(labels);
    var texts := LabelTexts(rows, sentiment);
    forall i | 0 <= i < |counts| && counts[i].0 == sentiment ensures |texts| == counts[i].1 {
      assert counts[i].1 == multiset(labels)[sentiment];
    }
    if forall i :: 0 <= i < |counts| ==> counts[i].0 != sentiment {
      assert sentiment !in labels;
      assert multiset(labels)[sentiment] == 0;
    }
  }

  /** Lines 500-501: the rows whose `createdAt` parsed, in order. */
  function StampedRows(rows: seq<Row>): (stamped: seq<Row>)
    ensures IsSubseq(stamped, rows)
    ensures forall i :: 0 <= i < |stamped| ==> stamped[i].post.createdAt.Some?
    ensures forall i :: 0 <= i < |rows| && rows[i].post.createdAt.Some? ==> rows[i] in stamped
    ensures forall x :: x in rows ==>
      multiset(stamped)[x] == if x.post.createdAt.Some? then multiset(rows)[x] else 0
  {
    Filter(rows, (r: Row) => r.post.createdAt.Some?)
  }

  /** The timestamps of stamped rows. */
  function StampsOf(rows: seq<Row>): (stamps: seq<Stamp>)
    requires forall i :: 0 <= i < |rows| ==> rows[i].post.createdAt.Some?
    ensures |stamps| == |rows|
  {
    seq(|rows|, i requires 0 <= i < |rows| => rows[i].post.createdAt.value)
  }

  /** The earliest day. */
  function MinDay(stamps: seq<Stamp>): (d: int)
    requires stamps != []
    ensures exists i :: 0 <= i < |stamps| && stamps[i].day == d
    ensures forall i :: 0 <= i < |stamps| ==> d <= stamps[i].day
  {
    if |stamps| == 1 then stamps[0].day
    else
      var m := MinDay(stamps[1..]);
      assert forall i :: 1 <= i < |stamps| ==> stamps[i] == stamps[1..][i - 1];
      if stamps[0].day <= m then stamps[0].day else m
  }

  /** The latest day. */
  function MaxDay(stamps: seq<Stamp>): (d: int)
    requires stamps != []
    ensures exists i :: 0 <= i < |stamps| && stamps[i].day == d
    ensures forall i :: 0 <= i < |stamps| ==> stamps[i].day <= d
  {
    if |stamps| == 1 then stamps[0].day
    else
      var m := MaxDay(stamps[1..]);
      assert forall i :: 1 <= i < |stamps| ==> stamps[i] == stamps[1..][i - 1];
      if stamps[0].day >= m then stamps[0].day else m
  }

  /** Every two timestamps are at most `n` days apart. */
  predicate WithinDays(stamps: seq<Stamp>, n: int) {
    forall i, j :: 0 <= i < |stamps| && 0 <= j < |stamps| ==> stamps[j].day - stamps[i].day <= n
  }

  /** The time bucket sizes of lines 508-516. */
  datatype Granularity = Hourly | Daily | Monthly

  /**
   * Lines 504-516: hourly buckets when all posts fall within 3 days, daily
   * ones when they fall within 150 days, monthly ones otherwise. With no
   * parsed timestamp the span is undefined, every comparison fails and the
   * buckets are monthly.
   */
  function GranularityOf(stamps: seq<Stamp>): (g: Granularity)
    ensures g == Hourly <==> stamps != [] && WithinDays(stamps, 3)
    ensures g == Daily <==> stamps != [] && !WithinDays(stamps, 3) && WithinDays(stamps, 150)
    ensures g == Monthly <==> stamps == [] || !WithinDays(stamps, 150)
  {
    if stamps == [] then Monthly
    else
      var span := MaxDay(stamps) - MinDay(stamps);
      if span <= 3 then Hourly
      else if span <= 150 then Daily
      else Monthly
  }

  /** A `time_bucket` value: an hour of a day, a day, or a month. */
  datatype Bucket = HourBucket(day: int, hour: int) | DayBucket(day: int) | MonthBucket(month: int)

  function BucketOf(g: Granularity, s: Stamp): (b: Bucket) {
    match g
    case Hourly => HourBucket(s.day, s.hour)
    case Daily => DayBucket(s.day)
    case Monthly => MonthBucket(s.month)
  }

  /** The chronological position of a bucket; group keys are listed in this order. */
  function BucketKey(b: Bucket): (key: int) {
    match b
    case HourBucket(day, hour) => day * 24 + hour
    case DayBucket(day) => day
    case MonthBucket(month) => month
  }

  /** The `time_bucket` column (lines 508-516). */
  function Buckets(stamps: seq<Stamp>): (buckets: seq<Bucket>)
    ensures |buckets| == |stamps|
    ensures forall i :: 0 <= i < |stamps| ==> buckets[i] == BucketOf(GranularityOf(stamps), stamps[i])
  {
    var g := GranularityOf(stamps);
    seq(|stamps|, i requires 0 <= i < |stamps| => BucketOf(g, stamps[i]))
  }

  /**
   * Line 523: the number of posts in each bucket, in chronological order.
   * Every bucket of a post appears once, and the counts add up to the
   * number of stamped posts.
   */
  function Timeline(stamps: seq<Stamp>): (t: seq<(Bucket, nat)>)
    ensures forall i, j :: 0 <= i < j < |t| ==> BucketKey(t[i].0) <= BucketKey(t[j].0)
    ensures forall i, j :: 0 <= i < j < |t| ==> t[i].0 != t[j].0
    ensures forall i :: 0 <= i < |t| ==> t[i].0 in Buckets(stamps) && t[i].1 == multiset(Buckets(stamps))[t[i].0]
    ensures forall k :: 0 <= k < |stamps| ==> exists i :: 0 <= i < |t| && t[i].0 == BucketOf(GranularityOf(stamps), stamps[k])
    ensures SumCounts(t) == |stamps|
  {
    var buckets := Buckets(stamps);
    var t := SortedTally(buckets, (p: (Bucket, nat)) => -BucketKey(p.0));
    assert forall k :: 0 <= k < |stamps| ==> buckets[k] in buckets;
    t
  }
}
