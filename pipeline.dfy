/**
 * One press of the "run" button (app.py lines 299-551): check the keys,
 * parse the search terms, collect and normalise the posts, drop repeated
 * urls, label every post, and compute the summaries and the CSV rows.
 *
 * Everything outside the program is a parameter: whether each key is set,
 * the scraper (`fetch`, `None` when it raises), the timestamp parser, the
 * classification reply for each row (`reply`, `None` when the call raises),
 * the theme backend (`backend`) and the fixed prompt texts.
 */
module Pipeline {
  import opened Wrappers
  import opened Strings
  import opened Seqs
  import opened Terms
  import opened Rows
  import opened Labels
  import opened Themes
  import opened Aggregate

  /** The three sentiments whose themes are extracted, in this order (line 489). */
  const SENTIMENTS := ["POSITIVO", "NEGATIVO", "NEUTRO"]

  /** The themes section of one sentiment: its posts, and the extraction when there are any. */
  datatype SentimentThemes = SentimentThemes(sentiment: string, count: nat, extraction: Option<Extraction>)

  /** Everything a completed run shows and offers for download. */
  datatype Report = Report(
    terms: seq<string>,
    rows: seq<Row>,
    classified: nat,
    generalThemes: Extraction,
    topViews: seq<Row>,
    topUsers: seq<UserStat>,
    counts: seq<(string, nat)>,
    percentages: seq<real>,
    themes: seq<SentimentThemes>,
    timeline: Option<(Granularity, seq<(Bucket, nat)>)>,
    csvRows: seq<Row>)

  /** How a run ends: one of the early stops, an uncaught missing column, or a report. */
  datatype Outcome =
    | MissingApifyToken
    | MissingGeminiKey
    | NoTerms
    | NoTweets
    | MissingColumn(column: Column)
    | Done(report: Report)

  /** The collected frame for the given search terms (lines 318-319). */
  function Collected(terms: seq<string>, fetch: seq<string> -> Option<seq<RawItem>>,
                     parseTime: Value -> Option<Stamp>): (frame: Frame) {
    Normalize(fetch(terms), parseTime)
  }

  /**
   * A frame with rows always has a `createdAt` column: without one, line 183
   * raises inside the `try` and the frame comes back empty. So the branch of
   * line 499 that skips the timeline is never taken.
   */
  lemma CollectedStamped(terms: seq<string>, fetch: seq<string> -> Option<seq<RawItem>>,
                         parseTime: Value -> Option<Stamp>)
    ensures Collected(terms, fetch, parseTime).rows != [] ==> CreatedAtColumn in Collected(terms, fetch, parseTime).columns
  {
    if Collected(terms, fetch, parseTime).rows != [] {
      KeptColumnsMember(fetch(terms).value, CreatedAtColumn);
    }
  }

  /** Both keys are set and the input names at least one search term. */
  predicate HasTerms(apifyToken: bool, geminiKey: bool, input: string) {
    apifyToken && geminiKey && !OnlySpacesAndCommas(input)
  }

  /** The frame collected for the terms of `input`. */
  function InputFrame(input: string, fetch: seq<string> -> Option<seq<RawItem>>,
                      parseTime: Value -> Option<Stamp>): (frame: Frame) {
    Collected(ParseTerms(input), fetch, parseTime)
  }

  /** The `text` column. */
  function TextColumnOf(posts: seq<Post>): (texts: seq<Value>)
    ensures |texts| == |posts|
    ensures forall i :: 0 <= i < |posts| ==> texts[i] == posts[i].text
  {
    seq(|posts|, i requires 0 <= i < |posts| => posts[i].text)
  }

  /** The texts as strings (`astype(str)`), for the theme prompts (line 371). */
  function RenderedTexts(rows: seq<Row>): (texts: seq<string>)
    ensures |texts| == |rows|
    ensures forall i :: 0 <= i < |rows| ==> texts[i] == Render(rows[i].post.text)
  {
    seq(|rows|, i requires 0 <= i < |rows| => Render(rows[i].post.text))
  }

  /** Lines 489-498 for one sentiment: extract themes only when it has posts. */
  function ThemesFor(rows: seq<Row>, sentiment: string, topicHeader: string -> string,
                     backend: string -> Option<string>): (t: SentimentThemes)
    ensures t.sentiment == sentiment
    ensures t.count == multiset(LabelsOf(rows))[sentiment]
    ensures t.extraction.Some? <==> sentiment in LabelsOf(rows)
    ensures t.extraction.Some? ==>
      t.extraction.value == Extract(TOPIC_MESSAGES, true, topicHeader(sentiment), LabelTexts(rows, sentiment), backend)
  {
    var subset := LabelTexts(rows, sentiment);
    if subset != [] then
      SentimentThemes(sentiment, |subset|, Some(Extract(TOPIC_MESSAGES, true, topicHeader(sentiment), subset, backend)))
    else
      SentimentThemes(sentiment, 0, None)
  }

  /**
   * Lines 488-498: the loop over the three sentiments, one themes section
   * each, in order.
   */
  method SentimentThemesAll(rows: seq<Row>, topicHeader: string -> string, backend: string -> Option<string>)
    returns (themes: seq<SentimentThemes>)
    ensures |themes| == |SENTIMENTS|
    ensures forall k :: 0 <= k < |SENTIMENTS| ==> themes[k] == ThemesFor(rows, SENTIMENTS[k], topicHeader, backend)
  {
    themes := [];
    for k := 0 to |SENTIMENTS|
      invariant |themes| == k
      invariant forall j :: 0 <= j < k ==> themes[j] == ThemesFor(rows, SENTIMENTS[j], topicHeader, backend)
    {
      themes := themes + [ThemesFor(rows, SENTIMENTS[k], topicHeader, backend)];
    }
  }

  /**
   * Lines 340-362: the posts in order, each with the label of its own call,
   * and the number of calls made.
   */
  predicate IsLabelled(rows: seq<Row>, classified: nat, posts: seq<Post>, reply: nat -> Option<string>) {
    && |rows| == |posts|
    && (forall i :: 0 <= i < |rows| ==> rows[i].post == posts[i])
    && LabelsOf(rows) == ExpectedLabels(TextColumnOf(posts), true, reply)
    && classified == |ValidIndices(TextColumnOf(posts))|
  }

  /** Lines 366-498: the summaries computed from the labelled rows. */
  predicate HasSummaries(r: Report, posts: seq<Post>, backend: string -> Option<string>,
                         generalHeader: string, topicHeader: string -> string) {
    && r.generalThemes == Extract(GENERAL_MESSAGES, true, generalHeader, RenderedTexts(r.rows), backend)
    && r.topViews == TopViews(r.rows)
    && r.topUsers == TopUsers(posts)
    && r.counts == SentimentCounts(LabelsOf(r.rows))
    && r.percentages == Percentages(r.counts)
    && |r.themes| == |SENTIMENTS|
    && (forall k :: 0 <= k < |SENTIMENTS| ==> r.themes[k] == ThemesFor(r.rows, SENTIMENTS[k], topicHeader, backend))
  }

  /**
   * Lines 499-547: with a `createdAt` column (`stamped`) the timeline is
   * drawn from the rows whose timestamp parsed, and only those go to the
   * CSV; without one there is no timeline and every row goes to the CSV.
   */
  predicate HasTimeline(r: Report, stamped: bool) {
    && (stamped <==> r.timeline.Some?)
    && (stamped ==> r.csvRows == StampedRows(r.rows) &&
                    r.timeline == Some((GranularityOf(StampsOf(r.csvRows)), Timeline(StampsOf(r.csvRows)))))
    && (!stamped ==> r.csvRows == r.rows)
  }

  /**
   * What a completed run reports for the de-duplicated posts `posts` of a
   * frame with (`stamped`) or without a `createdAt` column.
   */
  predicate IsReport(r: Report, terms: seq<string>, posts: seq<Post>, stamped: bool,
                     reply: nat -> Option<string>, backend: string -> Option<string>,
                     generalHeader: string, topicHeader: string -> string) {
    && r.terms == terms
    && IsLabelled(r.rows, r.classified, posts, reply)
    && HasSummaries(r, posts, backend, generalHeader, topicHeader)
    && HasTimeline(r, stamped)
  }

  /**
   * Lines 340-547 on a non-empty frame: label the posts, then compute the
   * summaries.
   */
  method Analyse(terms: seq<string>, posts: seq<Post>, stamped: bool,
                 reply: nat -> Option<string>, backend: string -> Option<string>,
                 generalHeader: string, topicHeader: string -> string)
    returns (r: Report)
    requires posts != []
    ensures IsReport(r, terms, posts, stamped, reply, backend, generalHeader, topicHeader)
  {
    // Sentiment labels (lines 340-362); the model is configured since the key is set.
    var texts := TextColumnOf(posts);
    var labels, classified := AssembleLabels(texts, true, reply);
    var rows := Attach(posts, labels);
    assert LabelsOf(rows) == labels;

    // General themes over every post (lines 370-375).
    var generalThemes := Extract(GENERAL_MESSAGES, true, generalHeader, RenderedTexts(rows), backend);

    // Rankings (lines 386-432).
    var topViews := TopViews(rows);
    var topUsers := TopUsers(posts);

    // Distribution (lines 449-453).
    var counts := SentimentCounts(labels);
    var percentages := Percentages(counts);

    // Themes per sentiment (lines 489-498).
    var themes := SentimentThemesAll(rows, topicHeader, backend);

    // Timeline and the rows left for the CSV (lines 499-547).
    var timeline := None;
    var csvRows := rows;
    if stamped {
      csvRows := StampedRows(rows);
      var stamps := StampsOf(csvRows);
      timeline := Some((GranularityOf(stamps), Timeline(stamps)));
    }

    r := Report(terms, rows, classified, generalThemes, topViews, topUsers,
                counts, percentages, themes, timeline, csvRows);
  }

  /**
   * What every report promises: each post is counted once in the
   * distribution, the percentages add up to 100, at most one call per post
   * is counted, and the CSV rows are a subsequence of the rows.
   */
  lemma ReportFacts(r: Report, terms: seq<string>, posts: seq<Post>, stamped: bool,
                    reply: nat -> Option<string>, backend: string -> Option<string>,
                    generalHeader: string, topicHeader: string -> string)
    requires posts != []
    requires IsReport(r, terms, posts, stamped, reply, backend, generalHeader, topicHeader)
    ensures SumCounts(r.counts) == |r.rows|
    ensures SumReals(r.percentages) == 100.0
    ensures r.classified <= |r.rows|
    ensures IsSubseq(r.csvRows, r.rows)
  {
    PercentagesSum(r.counts);
    ValidIndicesBound(TextColumnOf(posts));
    if !stamped {
      SubseqSelf(r.rows);
    }
  }

  /**
   * Lines 318-551, once the terms are known: collect the posts, keep one
   * per url, and report on them. The run stops when no post is collected,
   * and a non-empty frame without a `url` or `text` column raises.
   */
  method Collect(terms: seq<string>,
                 fetch: seq<string> -> Option<seq<RawItem>>, parseTime: Value -> Option<Stamp>,
                 reply: nat -> Option<string>, backend: string -> Option<string>,
                 generalHeader: string, topicHeader: string -> string)
    returns (outcome: Outcome)
    ensures !outcome.MissingApifyToken? && !outcome.MissingGeminiKey? && !outcome.NoTerms?
    ensures outcome == NoTweets <==> Collected(terms, fetch, parseTime).rows == []
    ensures outcome == MissingColumn(UrlColumn) <==>
      Collected(terms, fetch, parseTime).rows != [] && UrlColumn !in Collected(terms, fetch, parseTime).columns
    ensures outcome == MissingColumn(TextColumn) <==>
      Collected(terms, fetch, parseTime).rows != [] && UrlColumn in Collected(terms, fetch, parseTime).columns &&
      TextColumn !in Collected(terms, fetch, parseTime).columns
    ensures outcome.Done? ==>
      var frame := Collected(terms, fetch, parseTime);
      && outcome.report.rows != []
      && IsReport(outcome.report, terms, UniqueByUrl(frame.rows),
                  CreatedAtColumn in frame.columns, reply, backend, generalHeader, topicHeader)
    ensures outcome.MissingColumn? ==> outcome.column == UrlColumn || outcome.column == TextColumn
    ensures outcome.Done? <==>
      var frame := Collected(terms, fetch, parseTime);
      frame.rows != [] && UrlColumn in frame.columns && TextColumn in frame.columns
    ensures outcome.Done? ==> outcome.report.timeline.Some?
  {
    var frame := Collected(terms, fetch, parseTime);
    CollectedStamped(terms, fetch, parseTime);
    if frame.rows != [] && UrlColumn !in frame.columns {
      return MissingColumn(UrlColumn);
    }
    var posts := UniqueByUrl(frame.rows);
    if posts == [] {
      return NoTweets;
    }
    if TextColumn !in frame.columns {
      return MissingColumn(TextColumn);
    }
    var report := Analyse(terms, posts, CreatedAtColumn in frame.columns, reply, backend, generalHeader, topicHeader);
    outcome := Done(report);
  }

  /**
   * Lines 299-551. The run stops with a message when the scraper token is
   * missing, when the model key is missing, when no search term is given,
   * or when no post is collected; a non-empty frame without a `url` or
   * `text` column raises. Otherwise it reports on the collected posts, one
   * per url.
   */
  method Run(apifyToken: bool, geminiKey: bool, input: string,
             fetch: seq<string> -> Option<seq<RawItem>>, parseTime: Value -> Option<Stamp>,
             reply: nat -> Option<string>, backend: string -> Option<string>,
             generalHeader: string, topicHeader: string -> string)
    returns (outcome: Outcome)
    ensures outcome == MissingApifyToken <==> !apifyToken
    ensures outcome == MissingGeminiKey <==> apifyToken && !geminiKey
    ensures outcome == NoTerms <==> apifyToken && geminiKey && OnlySpacesAndCommas(input)
    ensures outcome == NoTweets <==>
      HasTerms(apifyToken, geminiKey, input) && InputFrame(input, fetch, parseTime).rows == []
    ensures outcome == MissingColumn(UrlColumn) <==>
      HasTerms(apifyToken, geminiKey, input) && InputFrame(input, fetch, parseTime).rows != [] &&
      UrlColumn !in InputFrame(input, fetch, parseTime).columns
    ensures outcome == MissingColumn(TextColumn) <==>
      HasTerms(apifyToken, geminiKey, input) && InputFrame(input, fetch, parseTime).rows != [] &&
      UrlColumn in InputFrame(input, fetch, parseTime).columns &&
      TextColumn !in InputFrame(input, fetch, parseTime).columns
    ensures outcome.Done? ==>
      var frame := InputFrame(input, fetch, parseTime);
      && ParseTerms(input) != []
      && outcome.report.rows != []
      && IsReport(outcome.report, ParseTerms(input), UniqueByUrl(frame.rows),
                  CreatedAtColumn in frame.columns, reply, backend, generalHeader, topicHeader)
    ensures outcome.MissingColumn? ==> outcome.column == UrlColumn || outcome.column == TextColumn
    ensures outcome.Done? <==>
      HasTerms(apifyToken, geminiKey, input) && InputFrame(input, fetch, parseTime).rows != [] &&
      UrlColumn in InputFrame(input, fetch, parseTime).columns &&
      TextColumn in InputFrame(input, fetch, parseTime).columns
    ensures outcome.Done? ==> outcome.report.timeline.Some?
  {
    if !apifyToken {
      return MissingApifyToken;
    }
    if !geminiKey {
      return MissingGeminiKey;
    }
    var terms := ParseTerms(input);
    ParseTermsNone(input);
    if terms == [] {
      return NoTerms;
    }
    outcome := Collect(terms, fetch, parseTime, reply, backend, generalHeader, topicHeader);
  }
}
