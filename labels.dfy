/**
 * Sentiment labelling (app.py lines 192-204 and 342-362). A results list is
 * pre-sized to the row count and filled with "NEUTRO"; one backend call is
 * made per row with non-blank text, and each finished call writes its label
 * at its own row's index, in whatever order the calls finish.
 */
module Labels {
  import opened Wrappers
  import opened Strings
  import opened Rows
  import Seqs

  const NEUTRAL := "NEUTRO"

  /** A row after line 362: the post and its `sentimiento` label. */
  datatype Row = Row(post: Post, sentiment: string)

  /**
   * `pd.notna(t) and str(t).strip()` (line 343). Numbers and nested objects
   * always print as something non-blank.
   */
  predicate HasText(v: Value)
    ensures HasText(v) <==> !v.Null? && !IsBlank(Render(v))
  {
    match v
    case Null => false
    case Str(s) => !IsBlank(s)
    case _ => true
  }

  /**
   * `clasificar_tweet` (lines 192-204): "NEUTRO" when there is no model or
   * the call raised (`reply` is `None`), else the reply stripped and
   * upper-cased. The label is always normalised (stripped, upper-case), and
   * anything but "NEUTRO" comes from a reply.
   */
  function Classify(hasModel: bool, reply: Option<string>): (sentiment: string)
    ensures IsStripped(sentiment) && Upper(sentiment) == sentiment
    ensures !hasModel || reply.None? ==> sentiment == NEUTRAL
    ensures hasModel && reply.Some? ==> sentiment == Upper(Strip(reply.value))
  {
    if !hasModel then NEUTRAL
    else
      match reply
      case None => NEUTRAL
      case Some(text) =>
        UpperKeepsStripped(Strip(text));
        Upper(Strip(text))
  }

  /** The indices of the rows that get a backend call: `tweets_validos` (line 343). */
  function ValidIndices(texts: seq<Value>): (valid: set<nat>)
    ensures forall i :: i in valid ==> i < |texts| && HasText(texts[i])
    ensures forall i :: 0 <= i < |texts| && HasText(texts[i]) ==> i in valid
  {
    set i | 0 <= i < |texts| && HasText(texts[i])
  }

  /** `{0, ..., n - 1}`. */
  function Below(n: nat): (r: set<nat>)
    ensures |r| == n
    ensures forall i: nat :: i in r <==> i < n
  {
    if n == 0 then {} else Below(n - 1) + {n - 1}
  }

  /** At most one call per row. */
  lemma ValidIndicesBound(texts: seq<Value>)
    ensures |ValidIndices(texts)| <= |texts|
  {
    Seqs.SubsetCardinality(ValidIndices(texts), Below(|texts|));
  }

  /**
   * The label list the run must produce, one per row: row `i` holds the
   * classification of the reply to row `i`'s own call when its text is
   * non-blank, and "NEUTRO" otherwise. `reply(i)` is the backend's answer to
   * the call made for row `i` (`None` when it raised).
   */
  function ExpectedLabels(texts: seq<Value>, hasModel: bool, reply: nat -> Option<string>): (labels: seq<string>)
    ensures |labels| == |texts|
    ensures forall i :: 0 <= i < |texts| && !HasText(texts[i]) ==> labels[i] == NEUTRAL
    ensures forall i :: 0 <= i < |texts| && HasText(texts[i]) ==> labels[i] == Classify(hasModel, reply(i))
    ensures forall i :: 0 <= i < |texts| ==> IsStripped(labels[i]) && Upper(labels[i]) == labels[i]
  {
    seq(|texts|, i requires 0 <= i < |texts| => if HasText(texts[i]) then Classify(hasModel, reply(i)) else NEUTRAL)
  }

  /**
   * The results list once every call outside `pending` has finished: a row
   * whose call has finished holds its classification, every other row still
   * holds the "NEUTRO" it was created with.
   */
  function PartialLabels(texts: seq<Value>, hasModel: bool, reply: nat -> Option<string>, pending: set<nat>): (labels: seq<string>)
    ensures |labels| == |texts|
  {
    seq(|texts|, i requires 0 <= i < |texts| =>
      if HasText(texts[i]) && i !in pending then Classify(hasModel, reply(i)) else NEUTRAL)
  }

  /** Before any call finishes, every row is "NEUTRO". */
  lemma PartialLabelsStart(texts: seq<Value>, hasModel: bool, reply: nat -> Option<string>)
    ensures PartialLabels(texts, hasModel, reply, ValidIndices(texts)) == seq(|texts|, _ => NEUTRAL)
  {
  }

  /** Once every call has finished, the list is the expected one. */
  lemma PartialLabelsDone(texts: seq<Value>, hasModel: bool, reply: nat -> Option<string>)
    ensures PartialLabels(texts, hasModel, reply, {}) == ExpectedLabels(texts, hasModel, reply)
  {
  }

  /** The call for row `idx` finishing writes exactly its own slot. */
  lemma PartialLabelsStep(texts: seq<Value>, hasModel: bool, reply: nat -> Option<string>, pending: set<nat>, idx: nat)
    requires idx in pending && pending <= ValidIndices(texts)
    ensures idx < |texts|
    ensures PartialLabels(texts, hasModel, reply, pending - {idx})
         == PartialLabels(texts, hasModel, reply, pending)[idx := Classify(hasModel, reply(idx))]
  {
    assert idx < |texts| && HasText(texts[idx]);
    var after := PartialLabels(texts, hasModel, reply, pending - {idx});
    var before := PartialLabels(texts, hasModel, reply, pending);
    var written := Classify(hasModel, reply(idx));
    forall i | 0 <= i < |texts| ensures after[i] == before[idx := written][i] {
      if i != idx {
        assert (i in pending - {idx}) == (i in pending);
      }
    }
  }

  /**
   * Lines 342-360. `pending` is the set of calls not yet finished; each loop
   * iteration takes any one of them (the model of `as_completed`), writes its
   * label at its row's index and counts it. Whatever the order, the result is
   * `ExpectedLabels`, and every submitted call is counted exactly once.
   */
  method AssembleLabels(texts: seq<Value>, hasModel: bool, reply: nat -> Option<string>)
    returns (labels: seq<string>, classified: nat)
    ensures labels == ExpectedLabels(texts, hasModel, reply)
    ensures classified == |ValidIndices(texts)| && classified <= |texts|
  {
    ValidIndicesBound(texts);
    var results := new string[|texts|](_ => NEUTRAL);
    var pending := ValidIndices(texts);
    PartialLabelsStart(texts, hasModel, reply);
    classified := 0;
    while pending != {}
      invariant pending <= ValidIndices(texts)
      invariant classified + |pending| == |ValidIndices(texts)|
      invariant results[..] == PartialLabels(texts, hasModel, reply, pending)
      decreases |pending|
    {
      var idx :| idx in pending;
      PartialLabelsStep(texts, hasModel, reply, pending, idx);
      results[idx] := Classify(hasModel, reply(idx));
      pending := pending - {idx};
      classified := classified + 1;
    }
    PartialLabelsDone(texts, hasModel, reply);
    labels := results[..];
  }

  /** `df["sentimiento"] = resultados` (line 362). */
  function Attach(posts: seq<Post>, labels: seq<string>): (rows: seq<Row>)
    requires |labels| == |posts|
    ensures |rows| == |posts|
    ensures forall i :: 0 <= i < |rows| ==> rows[i].post == posts[i] && rows[i].sentiment == labels[i]
  {
    seq(|posts|, i requires 0 <= i < |posts| => Row(posts[i], labels[i]))
  }

  /** The `sentimiento` column. */
  function LabelsOf(rows: seq<Row>): (labels: seq<string>)
    ensures |labels| == |rows|
    ensures forall i :: 0 <= i < |rows| ==> labels[i] == rows[i].sentiment
  {
    seq(|rows|, i requires 0 <= i < |rows| => rows[i].sentiment)
  }
}
