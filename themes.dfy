/**
 * Theme extraction (app.py lines 206-261): `extraer_temas_con_ia` for one
 * sentiment and `extraer_temas_generales_con_ia` for all posts. Both take the
 * first 500 texts, join them with newlines, and ask the backend only when
 * that text is not blank. They differ only in their prompt and messages.
 */
module Themes {
  import opened Wrappers
  import opened Strings

  /** At most this many posts go into one prompt (lines 221 and 249). */
  const SAMPLE_LIMIT := 500

  /** The three fixed answers: no model, nothing to analyse, backend failure. */
  datatype Messages = Messages(noModel: string, notEnough: string, failed: string)

  /** Lines 208, 223 and 230. */
  const TOPIC_MESSAGES := Messages(
    "El modelo de IA no está disponible para extraer temas.",
    "No hay tweets suficientes para extraer temas.",
    "No se pudieron extraer temas.")

  /** Lines 235, 254 and 261. */
  const GENERAL_MESSAGES := Messages(
    "El modelo de IA no está disponible para extraer temas generales.",
    "No hay tweets suficientes para extraer temas generales.",
    "No se pudieron extraer temas generales.")

  /**
   * The text shown to the user, and the prompt sent to the backend
   * (`None` when no call was made).
   */
  datatype Extraction = Extraction(summary: string, prompt: Option<string>)

  /** `tweets[:500]`: the first posts, at most `SAMPLE_LIMIT` of them. */
  function Sample(tweets: seq<string>): (s: seq<string>)
    ensures |s| == Min(|tweets|, SAMPLE_LIMIT)
    ensures s == tweets[..|s|]
  {
    if |tweets| <= SAMPLE_LIMIT then tweets else tweets[..SAMPLE_LIMIT]
  }

  /**
   * Lines 206-230 and 233-261. `header` is the fixed prompt text before the
   * posts; `backend` answers a prompt, or gives `None` when the call raises.
   * With no model, nothing is asked. Otherwise the backend is asked exactly
   * when some sampled post is not blank, with the header followed by the
   * sampled posts one per line, and its stripped answer is shown.
   */
  function Extract(msgs: Messages, hasModel: bool, header: string, tweets: seq<string>,
                   backend: string -> Option<string>): (e: Extraction)
    ensures !hasModel ==> e == Extraction(msgs.noModel, None)
    ensures e.prompt.Some? <==>
      hasModel && exists i :: 0 <= i < |Sample(tweets)| && !IsBlank(Sample(tweets)[i])
    ensures hasModel && e.prompt.None? ==> e.summary == msgs.notEnough
    ensures e.prompt.Some? ==>
      e.prompt.value == header + JoinLines(Sample(tweets)) &&
      e.summary == match backend(e.prompt.value)
                   case Some(answer) => Strip(answer)
                   case None => msgs.failed
  {
    if !hasModel then Extraction(msgs.noModel, None)
    else
      var text := JoinLines(Sample(tweets));
      JoinLinesBlank(Sample(tweets));
      if IsBlank(text) then Extraction(msgs.notEnough, None)
      else
        var prompt := header + text;
        match backend(prompt)
        case Some(answer) => Extraction(Strip(answer), Some(prompt))
        case None => Extraction(msgs.failed, Some(prompt))
  }

  /** Only the first `SAMPLE_LIMIT` posts matter: later ones never change the outcome. */
  lemma ExtractIgnoresTail(msgs: Messages, hasModel: bool, header: string, tweets: seq<string>,
                           more: seq<string>, backend: string -> Option<string>)
    requires |tweets| >= SAMPLE_LIMIT
    ensures Extract(msgs, hasModel, header, tweets + more, backend)
         == Extract(msgs, hasModel, header, tweets, backend)
  {
    assert Sample(tweets + more) == Sample(tweets);
  }
}
