/**
 * Search-term parsing (app.py line 312): the text area is split on ',' and
 * '\n', each piece is stripped, and pieces that strip to nothing are dropped.
 * An empty result stops the run (lines 313-315; see Pipeline.Run).
 */
module Terms {
  import opened Strings
  import Seqs

  predicate IsSeparator(c: char) {
    c == ',' || c == '\n'
  }

  predicate NoSeparator(s: string) {
    forall i :: 0 <= i < |s| ==> !IsSeparator(s[i])
  }

  /** `re.split(r'[,\n]', s)`: the pieces between separators, at least one. */
  function SplitPieces(s: string): (r: seq<string>)
    ensures |r| >= 1
    ensures forall k :: 0 <= k < |r| ==> NoSeparator(r[k])
  {
    if s == [] then [[]]
    else
      var rest := SplitPieces(s[1..]);
      if IsSeparator(s[0]) then [[]] + rest
      else [[s[0]] + rest[0]] + rest[1..]
  }

  /** Splitting at one separator splits the pieces there too. */
  lemma {:induction false} SplitPiecesAt(a: string, c: char, b: string)
    requires IsSeparator(c)
    ensures SplitPieces(a + [c] + b) == SplitPieces(a) + SplitPieces(b)
  {
    if a == [] {
      assert a + [c] + b == [c] + b;
      assert ([c] + b)[1..] == b;
    } else {
      assert (a + [c] + b)[1..] == a[1..] + [c] + b;
      SplitPiecesAt(a[1..], c, b);
    }
  }

  /** Text without separators is one piece. */
  lemma {:induction false} SplitPiecesWhole(s: string)
    requires NoSeparator(s)
    ensures SplitPieces(s) == [s]
  {
    if s != [] {
      SplitPiecesWhole(s[1..]);
      assert s == [s[0]] + s[1..];
    }
  }

  /** Stripping cannot introduce a separator. */
  lemma StripNoSeparator(s: string)
    requires NoSeparator(s)
    ensures NoSeparator(Strip(s))
  {
    var i := StripInfix(s);
    forall k | 0 <= k < |Strip(s)| ensures !IsSeparator(Strip(s)[k]) {
      assert Strip(s)[k] == s[i + k];
    }
  }

  /** What one piece contributes: its strip, unless that is empty. */
  function KeptPiece(piece: string): (r: seq<string>)
    ensures r == [] <==> IsBlank(piece)
    ensures r != [] ==> r == [Strip(piece)]
  {
    var t := Strip(piece);
    if t == [] then [] else [t]
  }

  /** The comprehension `[p.strip() for p in pieces if p.strip()]`. */
  function KeepTerms(pieces: seq<string>): (r: seq<string>)
    ensures forall k :: 0 <= k < |r| ==> r[k] != []
    ensures |r| <= |pieces|
  {
    if pieces == [] then []
    else
      KeptPiece(pieces[0]) + KeepTerms(pieces[1..])
  }

  /** Each kept term is some piece, stripped. */
  lemma {:induction false} KeepTermsSource(pieces: seq<string>, k: nat) returns (i: nat)
    requires k < |KeepTerms(pieces)|
    ensures i < |pieces| && KeepTerms(pieces)[k] == Strip(pieces[i])
    decreases |pieces|
  {
    var n := KeepTermsIndex(pieces, k);
    if k < n {
      i := 0;
    } else {
      var j := KeepTermsSource(pieces[1..], k - n);
      i := j + 1;
      var p := pieces[1..][j];
      assert p == pieces[i];
      calc {
        KeepTerms(pieces)[k];
        KeepTerms(pieces[1..])[k - n];
        Strip(p);
      }
    }
  }

  /** The term at `k` comes from the first piece, or from the rest shifted by what the first piece kept. */
  lemma KeepTermsIndex(pieces: seq<string>, k: nat) returns (n: nat)
    requires k < |KeepTerms(pieces)|
    ensures pieces != [] && n == |KeptPiece(pieces[0])|
    ensures k < n ==> KeepTerms(pieces)[k] == Strip(pieces[0])
    ensures k >= n ==> k - n < |KeepTerms(pieces[1..])| && KeepTerms(pieces)[k] == KeepTerms(pieces[1..])[k - n]
  {
    var head := KeptPiece(pieces[0]);
    var rest := KeepTerms(pieces[1..]);
    assert KeepTerms(pieces) == head + rest;
    n := |head|;
    Seqs.AppendAt(head, rest, k);
    if k < n {
      assert head == [Strip(pieces[0])];
    }
  }

  /** Every kept term has no surrounding whitespace. */
  lemma KeepTermsStripped(pieces: seq<string>)
    ensures forall k :: 0 <= k < |KeepTerms(pieces)| ==> IsStripped(KeepTerms(pieces)[k])
  {
    forall k | 0 <= k < |KeepTerms(pieces)| ensures IsStripped(KeepTerms(pieces)[k]) {
      var i := KeepTermsSource(pieces, k);
    }
  }

  /** Stripping brings in no separator. */
  lemma KeepTermsNoSeparator(pieces: seq<string>)
    requires forall k :: 0 <= k < |pieces| ==> NoSeparator(pieces[k])
    ensures forall k :: 0 <= k < |KeepTerms(pieces)| ==> NoSeparator(KeepTerms(pieces)[k])
  {
    forall k | 0 <= k < |KeepTerms(pieces)| ensures NoSeparator(KeepTerms(pieces)[k]) {
      var i := KeepTermsSource(pieces, k);
      StripNoSeparator(pieces[i]);
    }
  }

  lemma {:induction false} KeepTermsAppend(a: seq<string>, b: seq<string>)
    ensures KeepTerms(a + b) == KeepTerms(a) + KeepTerms(b)
  {
    if a == [] {
      assert a + b == b;
    } else {
      var head := KeptPiece(a[0]);
      assert (a + b)[0] == a[0];
      assert (a + b)[1..] == a[1..] + b;
      KeepTermsAppend(a[1..], b);
      calc {
        KeepTerms(a + b);
        head + KeepTerms(a[1..] + b);
        head + (KeepTerms(a[1..]) + KeepTerms(b));
        (head + KeepTerms(a[1..])) + KeepTerms(b);
        KeepTerms(a) + KeepTerms(b);
      }
    }
  }

  /**
   * The search terms of the input: each non-empty, without surrounding
   * whitespace and without ',' or '\n'.
   */
  function ParseTerms(input: string): (terms: seq<string>)
    ensures forall k :: 0 <= k < |terms| ==> terms[k] != [] && IsStripped(terms[k]) && NoSeparator(terms[k])
  {
    KeepTermsStripped(SplitPieces(input));
    KeepTermsNoSeparator(SplitPieces(input));
    KeepTerms(SplitPieces(input))
  }

  /**
   * Terms keep their input order: the terms of `a`, a separator and `b` are
   * the terms of `a` followed by the terms of `b`.
   */
  lemma ParseTermsAt(a: string, c: char, b: string)
    requires IsSeparator(c)
    ensures ParseTerms(a + [c] + b) == ParseTerms(a) + ParseTerms(b)
  {
    SplitPiecesAt(a, c, b);
    KeepTermsAppend(SplitPieces(a), SplitPieces(b));
  }

  /** Text without separators gives its stripped self, or nothing when blank. */
  lemma ParseTermsWhole(s: string)
    requires NoSeparator(s)
    ensures ParseTerms(s) == if IsBlank(s) then [] else [Strip(s)]
  {
    SplitPiecesWhole(s);
    assert [s][1..] == [];
    assert KeepTerms([s]) == KeptPiece(s) + KeepTerms([]);
  }

  /** Nothing but whitespace and commas. */
  predicate OnlySpacesAndCommas(s: string) {
    forall i :: 0 <= i < |s| ==> IsSpace(s[i]) || s[i] == ','
  }

  lemma OnlySpacesAndCommasAt(a: string, c: char, b: string)
    requires IsSeparator(c)
    ensures OnlySpacesAndCommas(a + [c] + b) <==> OnlySpacesAndCommas(a) && OnlySpacesAndCommas(b)
  {
    var s := a + [c] + b;
    assert forall i :: 0 <= i < |a| ==> s[i] == a[i];
    assert forall i :: 0 <= i < |b| ==> s[|a| + 1 + i] == b[i];
    if OnlySpacesAndCommas(a) && OnlySpacesAndCommas(b) {
      forall i | 0 <= i < |s| ensures IsSpace(s[i]) || s[i] == ',' {
        if i > |a| { assert s[i] == b[i - |a| - 1]; }
      }
    }
  }

  /**
   * No terms at all (the run stops) exactly when the input holds nothing but
   * whitespace and commas.
   */
  lemma {:induction false} ParseTermsNone(input: string)
    ensures ParseTerms(input) == [] <==> OnlySpacesAndCommas(input)
    decreases |input|
  {
    if NoSeparator(input) {
      ParseTermsWhole(input);
    } else {
      var k :| 0 <= k < |input| && IsSeparator(input[k]);
      var a, b := input[..k], input[k + 1..];
      assert input == a + [input[k]] + b;
      ParseTermsAt(a, input[k], b);
      OnlySpacesAndCommasAt(a, input[k], b);
      ParseTermsNone(a);
      ParseTermsNone(b);
    }
  }
}
