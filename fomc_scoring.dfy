/** Multi-dimensional stance scoring of FOMC statements (`analyze_statements`)
    and the column renaming that prepares the statement table for it (the
    end of `fetch_and_save_raw_data`). A statement is lowered and split on
    '.'; for each policy dimension the sentences holding one of its keywords
    are kept, at most 20 of them, each cut to 512 characters, and handed to
    the sentiment classifier; the classifier's positive and negative scores
    become a 0-100 score, 50 when there is nothing to weigh. */
module FomcScoring {
  import opened Wrappers
  import opened Text
  import opened NlpConfig

  /** One result of the sentiment classifier: its label (`tag`), such as "positive",
      "negative" or "neutral" and its confidence. */
  datatype Sentiment = Sentiment(tag: string, score: real)

  /** A value of the statement table: a string, or a missing value (NaN). */
  datatype Cell = Str(s: string) | Missing

  /** A table: column names in order and rows of cells. */
  datatype Frame = Frame(columns: seq<string>, rows: seq<seq<Cell>>)

  /** One `<dimension>_positive_score` entry of a record. */
  datatype ScoreField = ScoreField(key: string, score: int)

  /** One analysed statement: its `date` value (None when the table has no
      such column) and one score per dimension, in table order. */
  datatype Record = Record(date: Option<Cell>, scores: seq<ScoreField>)

  /** The ValueErrors the two functions raise. */
  datatype ScrapeError = NoStatementColumn | KeyColumnsMissing

  const MaxSentences: nat := 20
  const MaxSentenceLength: nat := 512
  const NeutralScore: real := 50.0

  // ---------------------------------------------------------------------
  // Sentence selection
  // ---------------------------------------------------------------------

  /** `any(keyword in s for keyword in keywords)`. */
  predicate Relevant(sentence: string, keywords: seq<string>)
  {
    exists j :: 0 <= j < |keywords| && Contains(sentence, keywords[j])
  }

  /** a can be obtained from b by deleting elements. */
  predicate IsSubsequence<T(==)>(a: seq<T>, b: seq<T>)
    decreases |b|
  {
    |a| == 0 || (|b| > 0 && ((a[0] == b[0] && IsSubsequence(a[1..], b[1..])) || IsSubsequence(a, b[1..])))
  }

  /** The list comprehension that keeps the relevant pieces. */
  function KeepRelevant(pieces: seq<string>, keywords: seq<string>): (r: seq<string>)
    ensures forall s :: s in r <==> s in pieces && Relevant(s, keywords)
    ensures IsSubsequence(r, pieces)
    ensures forall s :: multiset(r)[s] == if Relevant(s, keywords) then multiset(pieces)[s] else 0
  {
    if |pieces| == 0 then []
    else
      assert pieces == [pieces[0]] + pieces[1..];
      if Relevant(pieces[0], keywords) then [pieces[0]] + KeepRelevant(pieces[1..], keywords)
      else KeepRelevant(pieces[1..], keywords)
  }

  /** The sentences of a (lowered) statement relevant to a dimension, in
      their order in the text. */
  function RelevantSentences(text: string, keywords: seq<string>): (r: seq<string>)
    ensures forall s :: s in r <==> s in Split(text, '.') && Relevant(s, keywords)
    ensures IsSubsequence(r, Split(text, '.'))
  {
    KeepRelevant(Split(text, '.'), keywords)
  }

  /** Each relevant sentence is kept as often as it occurs in the text, each
      other sentence never: with the order above this fixes the list. */
  lemma RelevantSentenceCounts(text: string, keywords: seq<string>)
    ensures forall s :: multiset(RelevantSentences(text, keywords))[s]
                     == if Relevant(s, keywords) then multiset(Split(text, '.'))[s] else 0
  {
  }

  /** `relevant[:20]`, then `s[:512]` for each. */
  function ForClassifier(relevant: seq<string>): (r: seq<string>)
    ensures |r| == Min(|relevant|, MaxSentences)
    ensures forall i :: 0 <= i < |r| ==> |r[i]| == Min(|relevant[i]|, MaxSentenceLength)
    ensures forall i :: 0 <= i < |r| ==> IsPrefix(r[i], relevant[i])
  {
    var kept := Take(relevant, MaxSentences);
    seq(|kept|, i requires 0 <= i < |kept| => Take(kept[i], MaxSentenceLength))
  }

  /** The classifier applied to each sentence of the batch. */
  function ClassifyAll(sentences: seq<string>, classify: string -> Sentiment): (r: seq<Sentiment>)
    ensures |r| == |sentences|
    ensures forall i :: 0 <= i < |r| ==> r[i] == classify(sentences[i])
  {
    seq(|sentences|, i requires 0 <= i < |sentences| => classify(sentences[i]))
  }

  // ---------------------------------------------------------------------
  // Score aggregation
  // ---------------------------------------------------------------------

  /** `sum(s['score'] for s in sentiments if s['label'] == tag)`. */
  function SumLabel(ss: seq<Sentiment>, tag: string): real
  {
    if |ss| == 0 then 0.0
    else SumLabel(ss[..|ss| - 1], tag) + (if ss[|ss| - 1].tag == tag then ss[|ss| - 1].score else 0.0)
  }

  /** pos / (pos + neg) * 100 when pos + neg > 0, else 50. */
  function Aggregate(ss: seq<Sentiment>): real
  {
    var pos := SumLabel(ss, "positive");
    var total := pos + SumLabel(ss, "negative");
    if total > 0.0 then pos / total * 100.0 else NeutralScore
  }

  predicate NonNegative(ss: seq<Sentiment>)
  {
    forall i :: 0 <= i < |ss| ==> ss[i].score >= 0.0
  }

  /** The unrounded score of one dimension for one lowered statement. */
  function DimensionScore(text: string, dim: Dimension, classify: string -> Sentiment): real
  {
    var relevant := RelevantSentences(text, dim.keywords);
    if |relevant| == 0 then NeutralScore
    else Aggregate(ClassifyAll(ForClassifier(relevant), classify))
  }

  /** Python's `round` on a number: the nearest integer, ties to the even one. */
  function RoundHalfEven(x: real): (n: int)
    ensures (n as real) - 0.5 <= x <= (n as real) + 0.5
    ensures x == (n as real) - 0.5 || x == (n as real) + 0.5 ==> n % 2 == 0
  {
    var f := x.Floor;
    var d := x - f as real;
    if d < 0.5 then f else if d > 0.5 then f + 1 else if f % 2 == 0 then f else f + 1
  }

  lemma {:induction false} SumLabelNonNegative(ss: seq<Sentiment>, tag: string)
    requires NonNegative(ss)
    ensures SumLabel(ss, tag) >= 0.0
  {
    if |ss| > 0 {
      SumLabelNonNegative(ss[..|ss| - 1], tag);
    }
  }

  /** With non-negative classifier scores the aggregate lies in [0, 100]. */
  lemma AggregateBounds(ss: seq<Sentiment>)
    requires NonNegative(ss)
    ensures 0.0 <= Aggregate(ss) <= 100.0
  {
    var pos := SumLabel(ss, "positive");
    var neg := SumLabel(ss, "negative");
    SumLabelNonNegative(ss, "positive");
    SumLabelNonNegative(ss, "negative");
    if pos + neg > 0.0 {
      assert pos / (pos + neg) <= 1.0;
    }
  }

  /** A batch with no positive and no negative weight scores 50. */
  lemma AggregateNeutral(ss: seq<Sentiment>)
    requires SumLabel(ss, "positive") + SumLabel(ss, "negative") == 0.0
    ensures Aggregate(ss) == 50.0
  {
  }

  lemma {:induction false} SumLabelAppend(ss: seq<Sentiment>, x: Sentiment, tag: string)
    ensures SumLabel(ss + [x], tag) == SumLabel(ss, tag) + (if x.tag == tag then x.score else 0.0)
  {
    assert (ss + [x])[..|ss + [x]| - 1] == ss;
  }

  /** A sentence labelled neither positive nor negative ("neutral") does not
      change the score of its batch. */
  lemma AggregateIgnoresOtherLabels(ss: seq<Sentiment>, x: Sentiment)
    requires x.tag != "positive" && x.tag != "negative"
    ensures Aggregate(ss + [x]) == Aggregate(ss)
  {
    SumLabelAppend(ss, x, "positive");
    SumLabelAppend(ss, x, "negative");
  }

  /** The batch with "positive" and "negative" swapped. */
  function Swapped(ss: seq<Sentiment>): (r: seq<Sentiment>)
    ensures |r| == |ss|
  {
    seq(|ss|, i requires 0 <= i < |ss| =>
      if ss[i].tag == "positive" then Sentiment("negative", ss[i].score)
      else if ss[i].tag == "negative" then Sentiment("positive", ss[i].score)
      else ss[i])
  }

  lemma {:induction false} SumLabelSwapped(ss: seq<Sentiment>)
    ensures SumLabel(Swapped(ss), "positive") == SumLabel(ss, "negative")
    ensures SumLabel(Swapped(ss), "negative") == SumLabel(ss, "positive")
  {
    if |ss| > 0 {
      var init := ss[..|ss| - 1];
      SumLabelSwapped(init);
      assert Swapped(ss)[..|ss| - 1] == Swapped(init);
    }
  }

  /** The score is symmetric: swapping every positive and negative label
      turns a score s into 100 - s. */
  lemma AggregateComplement(ss: seq<Sentiment>)
    ensures Aggregate(Swapped(ss)) == 100.0 - Aggregate(ss)
  {
    SumLabelSwapped(ss);
    var pos := SumLabel(ss, "positive");
    var neg := SumLabel(ss, "negative");
    var total := pos + neg;
    if total > 0.0 {
      assert neg / total == (total - pos) / total == total / total - pos / total;
      assert total / total == 1.0;
    }
  }

  /** With a non-negative classifier every dimension score lies in [0, 100],
      and so does its rounded value. */
  lemma DimensionScoreBounds(text: string, dim: Dimension, classify: string -> Sentiment)
    requires forall s :: classify(s).score >= 0.0
    ensures 0.0 <= DimensionScore(text, dim, classify) <= 100.0
    ensures 0 <= RoundHalfEven(DimensionScore(text, dim, classify)) <= 100
  {
    var relevant := RelevantSentences(text, dim.keywords);
    if |relevant| > 0 {
      AggregateBounds(ClassifyAll(ForClassifier(relevant), classify));
    }
  }

  lemma {:induction false} KeepNoneRelevant(pieces: seq<string>, keywords: seq<string>)
    requires forall s :: s in pieces ==> !Relevant(s, keywords)
    ensures KeepRelevant(pieces, keywords) == []
  {
    if |pieces| > 0 {
      KeepNoneRelevant(pieces[1..], keywords);
    }
  }

  /** A statement with no sentence relevant to a dimension scores exactly 50. */
  lemma NothingRelevantIsNeutral(text: string, dim: Dimension, classify: string -> Sentiment)
    requires forall s :: s in Split(text, '.') ==> !Relevant(s, dim.keywords)
    ensures DimensionScore(text, dim, classify) == 50.0
    ensures RoundHalfEven(DimensionScore(text, dim, classify)) == 50
  {
    KeepNoneRelevant(Split(text, '.'), dim.keywords);
  }

  /** The keyword match is case-insensitive with respect to the original
      text: a sentence holding any case variant of a keyword is relevant
      once lowered. */
  lemma KeywordInAnyCase(sentence: string, variant: string, d: nat, j: nat)
    requires d < |PolicyDimensions| && j < |PolicyDimensions[d].keywords|
    requires Lower(variant) == PolicyDimensions[d].keywords[j]
    requires Contains(sentence, variant)
    ensures Relevant(Lower(sentence), PolicyDimensions[d].keywords)
  {
    ContainsLower(sentence, variant);
  }

  /** A sentence mentioning "strong" is relevant to both dimensions. */
  lemma StrongCountsTwice(sentence: string)
    requires Contains(sentence, "strong")
    ensures Relevant(sentence, PolicyDimensions[0].keywords)
    ensures Relevant(sentence, PolicyDimensions[1].keywords)
  {
    assert PolicyDimensions[0].keywords[5] == "strong";
    assert PolicyDimensions[1].keywords[0] == "strong";
  }

  // ---------------------------------------------------------------------
  // Rows and records
  // ---------------------------------------------------------------------

  /** The last of the first n columns named key: `dict(zip(columns, row))`
      keeps the value of the last duplicate. */
  function LastIndex(columns: seq<string>, key: string, n: nat): (r: Option<nat>)
    requires n <= |columns|
    ensures r.None? <==> key !in columns[..n]
    ensures r.Some? ==> r.value < n && columns[r.value] == key
    ensures r.Some? ==> forall j :: r.value < j < n ==> columns[j] != key
  {
    if n == 0 then None
    else if columns[n - 1] == key then Some(n - 1)
    else
      assert columns[..n] == columns[..n - 1] + [columns[n - 1]];
      LastIndex(columns, key, n - 1)
  }

  /** `dict(zip(columns, row)).get(key)`; zip stops at the shorter list. */
  function Lookup(columns: seq<string>, row: seq<Cell>, key: string): (r: Option<Cell>)
  {
    var n := Min(|columns|, |row|);
    match LastIndex(columns, key, n)
    case None => None
    case Some(j) => Some(row[j])
  }

  /** `str(value)`: a missing value prints as "nan". */
  function CellText(c: Cell): string
  {
    match c
    case Str(s) => s
    case Missing => "nan"
  }

  /** `str(row_dict.get('statement_text', '')).lower()`. */
  function StatementText(columns: seq<string>, row: seq<Cell>): string
  {
    match Lookup(columns, row, "statement_text")
    case None => ""
    case Some(c) => Lower(CellText(c))
  }

  function ScoreKey(dim: Dimension): string
  {
    dim.key + "_positive_score"
  }

  /** `record[f"{dim_key}_positive_score"] = round(score_positive)`. */
  function Field(text: string, dim: Dimension, classify: string -> Sentiment): ScoreField
  {
    ScoreField(ScoreKey(dim), RoundHalfEven(DimensionScore(text, dim, classify)))
  }

  /** The scores of one statement, one per dimension in table order. */
  function Scores(text: string, classify: string -> Sentiment): (r: seq<ScoreField>)
    ensures |r| == |PolicyDimensions|
    ensures forall j :: 0 <= j < |r| ==> r[j] == Field(text, PolicyDimensions[j], classify)
  {
    seq(|PolicyDimensions|, j requires 0 <= j < |PolicyDimensions| => Field(text, PolicyDimensions[j], classify))
  }

  /** The record of one row, or nothing when its text is empty. */
  function RowRecords(columns: seq<string>, row: seq<Cell>, classify: string -> Sentiment): seq<Record>
  {
    var text := StatementText(columns, row);
    if |text| == 0 then [] else [Record(Lookup(columns, row, "date"), Scores(text, classify))]
  }

  /** The batches of the rows, concatenated in row order. */
  function Collect<T, R>(rows: seq<T>, batch: T -> seq<R>): seq<R>
  {
    if |rows| == 0 then []
    else Collect(rows[..|rows| - 1], batch) + batch(rows[|rows| - 1])
  }

  lemma {:induction false} CollectAppend<T, R>(a: seq<T>, b: seq<T>, batch: T -> seq<R>)
    ensures Collect(a + b, batch) == Collect(a, batch) + Collect(b, batch)
    decreases |b|
  {
    if |b| == 0 {
      assert a + b == a;
    } else {
      var b' := b[..|b| - 1];
      CollectAppend(a, b', batch);
      assert (a + b)[..|a + b| - 1] == a + b';
      assert (a + b)[|a + b| - 1] == b[|b| - 1];
    }
  }

  /** The loop body over one row, as a function of the row. */
  function RowBatch(columns: seq<string>, classify: string -> Sentiment): seq<Cell> -> seq<Record>
  {
    row => RowRecords(columns, row, classify)
  }

  /** The records of the rows, in row order. */
  function AnalyzeRows(columns: seq<string>, rows: seq<seq<Cell>>, classify: string -> Sentiment): seq<Record>
  {
    Collect(rows, RowBatch(columns, classify))
  }

  /** What `analyze_statements` returns, or the ValueError it raises. */
  function Analysis(frame: Frame, classify: string -> Sentiment): Result<seq<Record>, ScrapeError>
  {
    if "statement_text" !in frame.columns then Failure(NoStatementColumn)
    else Success(AnalyzeRows(frame.columns, frame.rows, classify))
  }

  /** The rows whose lowered statement text is non-empty. */
  function CountNonEmpty(columns: seq<string>, rows: seq<seq<Cell>>): nat
  {
    if |rows| == 0 then 0
    else CountNonEmpty(columns, rows[..|rows| - 1]) + (if |StatementText(columns, rows[|rows| - 1])| > 0 then 1 else 0)
  }

  /** The loop over the rows. */
  method AnalyzeStatements(frame: Frame, classify: string -> Sentiment) returns (r: Result<seq<Record>, ScrapeError>)
    ensures r.Failure? <==> "statement_text" !in frame.columns
    ensures r.Failure? ==> r.error == NoStatementColumn
    ensures r == Analysis(frame, classify)
  {
    if "statement_text" !in frame.columns {
      return Failure(NoStatementColumn);
    }
    var rows := frame.rows;
    var records: seq<Record> := [];
    var i := 0;
    while i < |rows|
      invariant 0 <= i <= |rows|
      invariant records == AnalyzeRows(frame.columns, rows[..i], classify)
    {
      assert rows[..i + 1][..i] == rows[..i];
      var text := StatementText(frame.columns, rows[i]);
      if |text| > 0 {
        var scores := ScoreStatement(text, classify);
        records := records + [Record(Lookup(frame.columns, rows[i], "date"), scores)];
      }
      i := i + 1;
    }
    assert rows[..i] == rows;
    r := Success(records);
  }

  /** The loop over the dimensions that fills one record. */
  method ScoreStatement(text: string, classify: string -> Sentiment) returns (scores: seq<ScoreField>)
    ensures scores == Scores(text, classify)
  {
    scores := [];
    for d := 0 to |PolicyDimensions|
      invariant |scores| == d
      invariant forall j :: 0 <= j < d ==> scores[j] == Field(text, PolicyDimensions[j], classify)
    {
      scores := scores + [Field(text, PolicyDimensions[d], classify)];
    }
  }

  /** Analysing two tables of rows one after the other is analysing their
      concatenation: the records come in row order, one batch per row. */
  lemma AnalyzeRowsAppend(columns: seq<string>, a: seq<seq<Cell>>, b: seq<seq<Cell>>, classify: string -> Sentiment)
    ensures AnalyzeRows(columns, a + b, classify) == AnalyzeRows(columns, a, classify) + AnalyzeRows(columns, b, classify)
  {
    CollectAppend(a, b, RowBatch(columns, classify));
  }

  /** Rows with empty text are skipped; every other row yields exactly one record. */
  lemma {:induction false} RecordCount(columns: seq<string>, rows: seq<seq<Cell>>, classify: string -> Sentiment)
    ensures |AnalyzeRows(columns, rows, classify)| == CountNonEmpty(columns, rows)
  {
    if |rows| > 0 {
      RecordCount(columns, rows[..|rows| - 1], classify);
    }
  }

  /** One score per dimension, keyed `monetary_stance_positive_score` then
      `economic_outlook_positive_score`, each in [0, 100]. */
  predicate WellShaped(scores: seq<ScoreField>)
  {
    && |scores| == 2
    && scores[0].key == "monetary_stance_positive_score"
    && scores[1].key == "economic_outlook_positive_score"
    && 0 <= scores[0].score <= 100
    && 0 <= scores[1].score <= 100
  }

  lemma ScoresShape(text: string, classify: string -> Sentiment)
    requires forall s :: classify(s).score >= 0.0
    ensures WellShaped(Scores(text, classify))
  {
    var r := Scores(text, classify);
    ScoreKeys();
    DimensionScoreBounds(text, PolicyDimensions[0], classify);
    DimensionScoreBounds(text, PolicyDimensions[1], classify);
    assert r[0] == Field(text, PolicyDimensions[0], classify);
    assert r[1] == Field(text, PolicyDimensions[1], classify);
  }

  lemma ScoreKeys()
    ensures ScoreKey(PolicyDimensions[0]) == "monetary_stance_positive_score"
    ensures ScoreKey(PolicyDimensions[1]) == "economic_outlook_positive_score"
  {
  }

  /** Every record has the two dimension scores in table order and, for a
      non-negative classifier, each lies in [0, 100]. */
  lemma {:induction false} RecordShape(columns: seq<string>, rows: seq<seq<Cell>>, classify: string -> Sentiment)
    requires forall s :: classify(s).score >= 0.0
    ensures forall rec :: rec in AnalyzeRows(columns, rows, classify) ==> WellShaped(rec.scores)
  {
    if |rows| > 0 {
      RecordShape(columns, rows[..|rows| - 1], classify);
      ScoresShape(StatementText(columns, rows[|rows| - 1]), classify);
    }
  }

  /** No keyword occurs in "nan": only "cut" is as short, the rest are longer. */
  lemma NanHoldsNoKeyword(d: nat)
    requires d < |PolicyDimensions|
    ensures !Relevant("nan", PolicyDimensions[d].keywords)
  {
    var kws := PolicyDimensions[d].keywords;
    forall j | 0 <= j < |kws|
      ensures !Contains("nan", kws[j])
    {
      if |kws[j]| > 3 {
        ContainsLonger("nan", kws[j]);
      } else {
        var w := kws[j];
        assert w == "cut";
        assert !IsPrefix(w, "nan") by {
          assert "nan"[..3][0] == 'n' != w[0];
        }
        ContainsLonger("nan"[1..], w);
      }
    }
  }

  /** A row whose statement cell is a missing value is not skipped: its
      text is "nan", which holds no keyword, so both scores are 50. */
  lemma MissingTextScoresNeutral(columns: seq<string>, row: seq<Cell>, classify: string -> Sentiment)
    requires Lookup(columns, row, "statement_text") == Some(Missing)
    ensures |RowRecords(columns, row, classify)| == 1
    ensures RowRecords(columns, row, classify)[0].scores
         == [ScoreField("monetary_stance_positive_score", 50), ScoreField("economic_outlook_positive_score", 50)]
  {
    var text := StatementText(columns, row);
    assert text == "nan";
    SplitWithoutSeparator(text, '.');
    NanHoldsNoKeyword(0);
    NanHoldsNoKeyword(1);
    NothingRelevantIsNeutral(text, PolicyDimensions[0], classify);
    NothingRelevantIsNeutral(text, PolicyDimensions[1], classify);
    ScoreKeys();
    var r := Scores(text, classify);
    assert r[0] == Field(text, PolicyDimensions[0], classify);
    assert r[1] == Field(text, PolicyDimensions[1], classify);
  }

  // ---------------------------------------------------------------------
  // Column normalisation
  // ---------------------------------------------------------------------

  /** `df.rename(columns={from: to})`: every column named from is renamed. */
  function Rename(frame: Frame, from: string, to: string): (r: Frame)
    ensures r.rows == frame.rows && |r.columns| == |frame.columns|
    ensures forall i :: 0 <= i < |frame.columns| ==>
              r.columns[i] == if frame.columns[i] == from then to else frame.columns[i]
  {
    Frame(seq(|frame.columns|, i requires 0 <= i < |frame.columns| =>
            if frame.columns[i] == from then to else frame.columns[i]),
          frame.rows)
  }

  /** Which names a renaming leaves in the table. */
  lemma RenameMembership(frame: Frame, from: string, to: string, x: string)
    ensures x in Rename(frame, from, to).columns <==>
              (x == to && (from in frame.columns || to in frame.columns)) || (x != to && x != from && x in frame.columns)
  {
    var cols, renamed := frame.columns, Rename(frame, from, to).columns;
    if x in renamed {
      var i :| 0 <= i < |renamed| && renamed[i] == x;
      assert cols[i] in cols;
    }
    if x == to && from in cols {
      var i :| 0 <= i < |cols| && cols[i] == from;
      assert renamed[i] == x;
    }
    if x == to && to in cols {
      var i :| 0 <= i < |cols| && cols[i] == to;
      assert renamed[i] == x;
    }
    if x != to && x != from && x in cols {
      var i :| 0 <= i < |cols| && cols[i] == x;
      assert renamed[i] == x;
    }
  }

  /** The renaming chain at the end of `fetch_and_save_raw_data`: `index`
      becomes `date`; `FOMC_Statements`, or failing that `statements`,
      becomes `statement_text`; then both names must be present. */
  method NormalizeColumns(frame: Frame) returns (r: Result<Frame, ScrapeError>)
    ensures r.Success? <==>
              && ("index" in frame.columns || "date" in frame.columns)
              && ("FOMC_Statements" in frame.columns || "statements" in frame.columns || "statement_text" in frame.columns)
    ensures r.Failure? ==> r.error == KeyColumnsMissing
    ensures r.Success? ==>
              var cols, renamed := frame.columns, r.value.columns;
              && r.value.rows == frame.rows
              && |renamed| == |cols|
              && "date" in renamed && "statement_text" in renamed
              && forall i :: 0 <= i < |cols| ==>
                   renamed[i] == (if cols[i] == "index" then "date"
                                  else if cols[i] == "FOMC_Statements" then "statement_text"
                                  else if cols[i] == "statements" && "FOMC_Statements" !in cols then "statement_text"
                                  else cols[i])
  {
    var df := frame;
    if "index" in df.columns {
      df := Rename(df, "index", "date");
      RenameMembership(frame, "index", "date", "date");
      RenameMembership(frame, "index", "date", "FOMC_Statements");
      RenameMembership(frame, "index", "date", "statements");
      RenameMembership(frame, "index", "date", "statement_text");
    }
    var afterDate := df;
    if "FOMC_Statements" in df.columns {
      df := Rename(df, "FOMC_Statements", "statement_text");
      RenameMembership(afterDate, "FOMC_Statements", "statement_text", "date");
      RenameMembership(afterDate, "FOMC_Statements", "statement_text", "statement_text");
    } else if "statements" in df.columns {
      df := Rename(df, "statements", "statement_text");
      RenameMembership(afterDate, "statements", "statement_text", "date");
      RenameMembership(afterDate, "statements", "statement_text", "statement_text");
    }
    if "date" !in df.columns || "statement_text" !in df.columns {
      return Failure(KeyColumnsMissing);
    }
    return Success(df);
  }
}
