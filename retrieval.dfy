/** The retrieval pipeline of backend/rag_engine.py: score every product
    whose stored embedding parses, sort by score (descending, stable), keep
    the first `k`, and describe the best match; optionally hand that answer
    to an ordered chain of LLM providers. The sentence-embedding model, the
    JSON parser, the numeric value of a cosine and the provider calls are
    parameters of the model. */
module Retrieval {
  import opened Text
  import opened Catalog
  import opened Security

  type Vector = seq<real>

  // ---------------------------------------------------------------------
  // cosine_sim
  // ---------------------------------------------------------------------

  /** `np.linalg.norm(a) == 0`: every component is zero (the empty vector
      included). */
  predicate NormZero(a: Vector)
  {
    forall i :: 0 <= i < |a| ==> a[i] == 0.0
  }

  /** `cosine_sim(a, b)`: 0.0 when either vector has norm zero, so the
      quotient is never taken with a zero divisor. Otherwise `np.dot` raises
      (None here) on vectors of different lengths, and the quotient itself,
      a float the model does not compute, is `angle(a, b)`. */
  function CosineSim(a: Vector, b: Vector, angle: (Vector, Vector) -> real): (r: Option<real>)
    ensures NormZero(a) || NormZero(b) ==> r == Some(0.0)
    ensures r.None? <==> |a| != |b| && !NormZero(a) && !NormZero(b)
    ensures r.Some? && !NormZero(a) && !NormZero(b) ==> r.value == angle(a, b)
  {
    if NormZero(a) || NormZero(b) then Some(0.0)
    else if |a| != |b| then None
    else Some(angle(a, b))
  }

  // ---------------------------------------------------------------------
  // score_products
  // ---------------------------------------------------------------------

  /** A `(score, row)` pair of the `scored` list. */
  datatype Scored = Scored(score: real, row: Product)

  /** The body of the `try` for one row: `json.loads(r["embedding"])` (None
      when it raises, a NULL embedding included) and then `cosine_sim`. */
  function Score(row: Product, qEmb: Vector, parse: string -> Option<Vector>,
                 angle: (Vector, Vector) -> real): (r: Option<real>)
    ensures row.embedding.None? ==> r.None?
    ensures row.embedding.Some? && parse(row.embedding.value).None? ==> r.None?
    ensures row.embedding.Some? && parse(row.embedding.value).Some? ==>
              r == CosineSim(qEmb, parse(row.embedding.value).value, angle)
  {
    match row.embedding
    case None => None
    case Some(text) =>
      match parse(text)
      case None => None
      case Some(emb) => CosineSim(qEmb, emb, angle)
  }

  /** What one pass of the loop appends: the pair, or nothing when the
      `try` fails. */
  function ScoreStep(row: Product, qEmb: Vector, parse: string -> Option<Vector>,
                     angle: (Vector, Vector) -> real): (r: seq<Scored>)
    ensures r == [] <==> Score(row, qEmb, parse, angle).None?
    ensures r != [] ==> r == [Scored(Score(row, qEmb, parse, angle).value, row)]
  {
    match Score(row, qEmb, parse, angle)
    case None => []
    case Some(s) => [Scored(s, row)]
  }

  /** The list the loop of `score_products` appends to, before the sort. */
  function ScoredRows(rows: seq<Product>, qEmb: Vector, parse: string -> Option<Vector>,
                      angle: (Vector, Vector) -> real): (r: seq<Scored>)
    ensures |r| <= |rows|
  {
    if rows == [] then []
    else ScoredRows(rows[..|rows| - 1], qEmb, parse, angle) + ScoreStep(rows[|rows| - 1], qEmb, parse, angle)
  }

  function RowsOf(s: seq<Scored>): (r: seq<Product>)
    ensures |r| == |s|
    ensures forall i :: 0 <= i < |s| ==> r[i] == s[i].row
  {
    if s == [] then [] else [s[0].row] + RowsOf(s[1..])
  }

  /** Every scored pair carries the score of its own row. */
  lemma {:induction false} ScoredRowsSound(rows: seq<Product>, qEmb: Vector,
                                           parse: string -> Option<Vector>,
                                           angle: (Vector, Vector) -> real)
    ensures forall x :: x in ScoredRows(rows, qEmb, parse, angle) ==>
              x.row in rows && Score(x.row, qEmb, parse, angle) == Some(x.score)
  {
    if rows != [] {
      var init := rows[..|rows| - 1];
      ScoredRowsSound(init, qEmb, parse, angle);
      assert forall p :: p in init ==> p in rows;
    }
  }

  lemma {:induction false} RowsOfAppend(a: seq<Scored>, b: seq<Scored>)
    ensures RowsOf(a + b) == RowsOf(a) + RowsOf(b)
  {
    assert |RowsOf(a + b)| == |RowsOf(a) + RowsOf(b)|;
    forall i | 0 <= i < |a + b| ensures RowsOf(a + b)[i] == (RowsOf(a) + RowsOf(b))[i] {
    }
  }

  lemma ScoredRowsSnoc(rows: seq<Product>, qEmb: Vector, parse: string -> Option<Vector>,
                       angle: (Vector, Vector) -> real)
    requires rows != []
    ensures multiset(RowsOf(ScoredRows(rows, qEmb, parse, angle)))
            == multiset(RowsOf(ScoredRows(rows[..|rows| - 1], qEmb, parse, angle)))
               + multiset(RowsOf(ScoreStep(rows[|rows| - 1], qEmb, parse, angle)))
  {
    RowsOfAppend(ScoredRows(rows[..|rows| - 1], qEmb, parse, angle),
                 ScoreStep(rows[|rows| - 1], qEmb, parse, angle));
  }

  lemma ScoreStepCount(row: Product, r: Product, qEmb: Vector, parse: string -> Option<Vector>,
                       angle: (Vector, Vector) -> real)
    ensures multiset(RowsOf(ScoreStep(row, qEmb, parse, angle)))[r]
            == if Score(r, qEmb, parse, angle).Some? then multiset{row}[r] else 0
  {
    if ScoreStep(row, qEmb, parse, angle) != [] {
      assert RowsOf(ScoreStep(row, qEmb, parse, angle)) == [row];
    }
  }

  lemma {:induction false} ScoredRowsCountOf(rows: seq<Product>, r: Product, qEmb: Vector,
                                             parse: string -> Option<Vector>,
                                             angle: (Vector, Vector) -> real)
    ensures multiset(RowsOf(ScoredRows(rows, qEmb, parse, angle)))[r] ==
              if Score(r, qEmb, parse, angle).Some? then multiset(rows)[r] else 0
  {
    if rows != [] {
      var init := rows[..|rows| - 1];
      var last := rows[|rows| - 1];
      var some := Score(r, qEmb, parse, angle).Some?;
      assert multiset(RowsOf(ScoredRows(init, qEmb, parse, angle)))[r]
             == if some then multiset(init)[r] else 0 by {
        ScoredRowsCountOf(init, r, qEmb, parse, angle);
      }
      assert multiset(RowsOf(ScoreStep(last, qEmb, parse, angle)))[r]
             == if some then multiset{last}[r] else 0 by {
        ScoreStepCount(last, r, qEmb, parse, angle);
      }
      assert multiset(RowsOf(ScoredRows(rows, qEmb, parse, angle)))[r]
             == multiset(RowsOf(ScoredRows(init, qEmb, parse, angle)))[r]
                + multiset(RowsOf(ScoreStep(last, qEmb, parse, angle)))[r] by {
        ScoredRowsSnoc(rows, qEmb, parse, angle);
      }
      MultisetSnoc(rows);
    }
  }

  lemma MultisetSnoc<T>(s: seq<T>)
    requires s != []
    ensures multiset(s) == multiset(s[..|s| - 1]) + multiset{s[|s| - 1]}
  {
    assert s == s[..|s| - 1] + [s[|s| - 1]];
  }

  /** Each row whose embedding parses and compares is kept exactly as often
      as it occurs; the others are dropped silently. */
  lemma ScoredRowsCount(rows: seq<Product>, qEmb: Vector,
                        parse: string -> Option<Vector>,
                        angle: (Vector, Vector) -> real)
    ensures forall r :: multiset(RowsOf(ScoredRows(rows, qEmb, parse, angle)))[r] ==
              if Score(r, qEmb, parse, angle).Some? then multiset(rows)[r] else 0
  {
    forall r ensures multiset(RowsOf(ScoredRows(rows, qEmb, parse, angle)))[r] ==
                     if Score(r, qEmb, parse, angle).Some? then multiset(rows)[r] else 0
    {
      ScoredRowsCountOf(rows, r, qEmb, parse, angle);
    }
  }

  // ---------------------------------------------------------------------
  // scored.sort(key=lambda x: x[0], reverse=True)
  // ---------------------------------------------------------------------

  /** Non-increasing by score. */
  predicate SortedDesc(s: seq<Scored>)
  {
    forall i, j :: 0 <= i < j < |s| ==> s[i].score >= s[j].score
  }

  /** The pairs with score `v`, in their order. */
  function WithScore(s: seq<Scored>, v: real): seq<Scored>
  {
    if s == [] then [] else (if s[0].score == v then [s[0]] else []) + WithScore(s[1..], v)
  }

  /** Puts `x` before the first pair that does not score higher, so that `x`
      stays ahead of the pairs it ties with. */
  function Insert(x: Scored, s: seq<Scored>): (r: seq<Scored>)
    ensures |r| == |s| + 1
  {
    if s == [] then [x]
    else if s[0].score > x.score then [s[0]] + Insert(x, s[1..])
    else [x] + s
  }

  /** The stable descending sort of Python's `list.sort(reverse=True)`. */
  function SortDesc(s: seq<Scored>): (r: seq<Scored>)
    ensures |r| == |s|
  {
    if s == [] then [] else Insert(s[0], SortDesc(s[1..]))
  }

  lemma {:induction false} InsertMultiset(x: Scored, s: seq<Scored>)
    ensures multiset(Insert(x, s)) == multiset{x} + multiset(s)
  {
    if s != [] && s[0].score > x.score {
      InsertMultiset(x, s[1..]);
      assert s == [s[0]] + s[1..];
    }
  }

  /** A pair that scores at least as high as every pair of a sorted list
      can go in front of it. */
  lemma ConsSorted(h: Scored, t: seq<Scored>)
    requires SortedDesc(t)
    requires forall j :: 0 <= j < |t| ==> h.score >= t[j].score
    ensures SortedDesc([h] + t)
  {
    var r := [h] + t;
    forall i, j | 0 <= i < j < |r| ensures r[i].score >= r[j].score {
      assert r[j] == t[j - 1];
      if i > 0 {
        assert r[i] == t[i - 1];
      }
    }
  }

  lemma {:induction false} InsertSorted(x: Scored, s: seq<Scored>)
    requires SortedDesc(s)
    ensures SortedDesc(Insert(x, s))
  {
    if s != [] && s[0].score > x.score {
      var rest := Insert(x, s[1..]);
      InsertSorted(x, s[1..]);
      InsertMultiset(x, s[1..]);
      forall j | 0 <= j < |rest| ensures s[0].score >= rest[j].score {
        assert rest[j] in multiset(rest);
        if rest[j] != x {
          assert rest[j] in s[1..];
        }
      }
      ConsSorted(s[0], rest);
      assert Insert(x, s) == [s[0]] + rest;
    } else if s != [] {
      forall j | 0 <= j < |s| ensures x.score >= s[j].score {
        assert s[0].score >= s[j].score || j == 0;
      }
      ConsSorted(x, s);
      assert Insert(x, s) == [x] + s;
    }
  }

  lemma {:induction false} InsertWithScore(x: Scored, s: seq<Scored>, v: real)
    ensures WithScore(Insert(x, s), v) == (if x.score == v then [x] else []) + WithScore(s, v)
  {
    if s != [] && s[0].score > x.score {
      var rest := Insert(x, s[1..]);
      InsertWithScore(x, s[1..], v);
      assert Insert(x, s) == [s[0]] + rest;
      assert ([s[0]] + rest)[0] == s[0] && ([s[0]] + rest)[1..] == rest;
      assert WithScore(Insert(x, s), v) == (if s[0].score == v then [s[0]] else []) + WithScore(rest, v);
      if x.score == v {
        assert s[0].score != v;
      }
    } else if s != [] {
      assert ([x] + s)[0] == x && ([x] + s)[1..] == s;
    }
  }

  /** The sort keeps every pair, orders them by descending score, and keeps
      the pairs of equal score in their original order. */
  lemma {:induction false} SortDescSpec(s: seq<Scored>)
    ensures SortedDesc(SortDesc(s))
    ensures multiset(SortDesc(s)) == multiset(s)
    ensures forall v :: WithScore(SortDesc(s), v) == WithScore(s, v)
  {
    if s != [] {
      SortDescSpec(s[1..]);
      InsertMultiset(s[0], SortDesc(s[1..]));
      InsertSorted(s[0], SortDesc(s[1..]));
      assert s == [s[0]] + s[1..];
      forall v ensures WithScore(SortDesc(s), v) == WithScore(s, v) {
        InsertWithScore(s[0], SortDesc(s[1..]), v);
      }
    }
  }

  /** `score_products`: the loop that scores each row inside its `try`, then
      the stable descending sort. */
  method ScoreProducts(qEmb: Vector, rows: seq<Product>, parse: string -> Option<Vector>,
                       angle: (Vector, Vector) -> real)
    returns (scored: seq<Scored>)
    ensures scored == SortDesc(ScoredRows(rows, qEmb, parse, angle))
    ensures SortedDesc(scored)
    ensures multiset(scored) == multiset(ScoredRows(rows, qEmb, parse, angle))
  {
    var acc: seq<Scored> := [];
    for i := 0 to |rows|
      invariant acc == ScoredRows(rows[..i], qEmb, parse, angle)
    {
      assert rows[..i + 1][..i] == rows[..i];
      var s := Score(rows[i], qEmb, parse, angle);
      if s.Some? {
        acc := acc + [Scored(s.value, rows[i])];
      }
    }
    assert rows[..|rows|] == rows;
    scored := SortDesc(acc);
    SortDescSpec(acc);
  }

  // ---------------------------------------------------------------------
  // select_top_k and format_answer
  // ---------------------------------------------------------------------

  /** `state.get("k", 3)` when the caller gives no `k`. */
  const DefaultK: int := 3

  /** `select_top_k`: `scored[:k]`. */
  function SelectTopK(scored: seq<Scored>, k: int): (r: seq<Scored>)
    ensures |r| <= |scored| && r == scored[..|r|]
    ensures k >= 0 ==> |r| == (if k < |scored| then k else |scored|)
    ensures k < 0 ==> |r| == (if |scored| + k > 0 then |scored| + k else 0)
  {
    PyPrefix(scored, k)
  }

  /** A non-negative `k` keeps the first `min(k, |scored|)` pairs; none of
      the pairs cut off scores higher than a kept one; the result is empty
      exactly when nothing was scored, `k` is 0, or a negative `k` cuts off
      everything. */
  lemma TopKSpec(scored: seq<Scored>, k: int)
    requires SortedDesc(scored)
    ensures var top := SelectTopK(scored, k);
            k >= 0 ==> |top| == (if k < |scored| then k else |scored|)
    ensures var top := SelectTopK(scored, k);
            |top| <= |scored| && top == scored[..|top|]
    ensures var top := SelectTopK(scored, k);
            forall i, j :: 0 <= i < |top| <= j < |scored| ==> top[i].score >= scored[j].score
    ensures SelectTopK(scored, k) == [] <==> scored == [] || k == 0 || (k < 0 && |scored| <= -k)
  {
  }

  const NoMatch: string := "No matching products found \U{1F614}"

  /** One product described as the answer does it: `str` of the DECIMAL
      price column. */
  function Describe(p: Product): (r: string)
    ensures |r| == |p.name| + 8 + |DecimalText(p.price)| + 3 + |p.description|
    ensures r[..|p.name|] == p.name && r[|p.name|..|p.name| + 8] == " price \U{20B9}"
    ensures r[|p.name| + 8..|r| - |p.description| - 3] == DecimalText(p.price)
    ensures r[|r| - |p.description| - 3..|r| - |p.description|] == " \U{2014} "
    ensures r[|r| - |p.description|..] == p.description
  {
    var head := p.name + " price \U{20B9}";
    var price := DecimalText(p.price);
    var r := head + price + " \U{2014} " + p.description;
    assert r[..|head|] == head && r[|head|..|head| + |price|] == price;
    r
  }

  /** `format_answer`: the fixed sentence for an empty top list, otherwise
      the description of its first product. */
  function FormatAnswer(top: seq<Scored>): (r: string)
    ensures r == NoMatch <==> top == []
    ensures top != [] ==> r == Describe(top[0].row)
  {
    if top == [] then NoMatch
    else
      var r := Describe(top[0].row);
      assert r[|top[0].row.name| + 7] == '\U{20B9}';
      assert forall i :: 0 <= i < |NoMatch| ==> NoMatch[i] != '\U{20B9}';
      r
  }

  // ---------------------------------------------------------------------
  // rag_answer
  // ---------------------------------------------------------------------

  /** `SELECT * FROM products WHERE embedding IS NOT NULL`. */
  function WithEmbedding(table: seq<Product>): (r: seq<Product>)
    ensures forall p :: p in r <==> p in table && p.embedding.Some?
  {
    if table == [] then []
    else (if table[0].embedding.Some? then [table[0]] else []) + WithEmbedding(table[1..])
  }

  /** The answer the five nodes compute, in their order. */
  function RagAnswerText(query: string, k: int, embed: string -> Vector, table: seq<Product>,
                         parse: string -> Option<Vector>, angle: (Vector, Vector) -> real): (r: string)
    ensures r == NoMatch || exists p :: p in table && p.embedding.Some? && r == Describe(p)
  {
    var qEmb := embed(query);
    var rows := WithEmbedding(table);
    var scored := SortDesc(ScoredRows(rows, qEmb, parse, angle));
    TopRowsScored(rows, qEmb, parse, angle, k);
    FormatAnswer(SelectTopK(scored, k))
  }

  /** Every row the top list holds is one of the rows that were scored. */
  lemma TopRowsScored(rows: seq<Product>, qEmb: Vector, parse: string -> Option<Vector>,
                      angle: (Vector, Vector) -> real, k: int)
    ensures forall x :: x in SelectTopK(SortDesc(ScoredRows(rows, qEmb, parse, angle)), k) ==> x.row in rows
  {
    var raw := ScoredRows(rows, qEmb, parse, angle);
    SortDescSpec(raw);
    ScoredRowsSound(rows, qEmb, parse, angle);
    forall x | x in SelectTopK(SortDesc(raw), k) ensures x.row in rows {
      assert x in multiset(SortDesc(raw));
      assert x in raw;
    }
  }

  /** `rag_answer`: embed the query, fetch the rows, score, keep the top `k`,
      format; the result dictionary has the single key "answer". */
  method RagAnswer(query: string, k: int, embed: string -> Vector, table: seq<Product>,
                   parse: string -> Option<Vector>, angle: (Vector, Vector) -> real)
    returns (result: map<string, string>)
    ensures result == map["answer" := RagAnswerText(query, k, embed, table, parse, angle)]
  {
    var qEmb := embed(query);
    var rows := WithEmbedding(table);
    var scored := ScoreProducts(qEmb, rows, parse, angle);
    var top := SelectTopK(scored, k);
    var answer := FormatAnswer(top);
    result := map["answer" := answer];
  }

  /** The head of the sorted list is a scored row whose score no other
      scored row exceeds. */
  lemma SortedHeadIsBest(rows: seq<Product>, qEmb: Vector, parse: string -> Option<Vector>,
                         angle: (Vector, Vector) -> real)
    requires ScoredRows(rows, qEmb, parse, angle) != []
    ensures var best := SortDesc(ScoredRows(rows, qEmb, parse, angle))[0];
            best.row in rows && Score(best.row, qEmb, parse, angle) == Some(best.score)
            && forall q :: q in rows && Score(q, qEmb, parse, angle).Some? ==>
                             Score(q, qEmb, parse, angle).value <= best.score
  {
    var raw := ScoredRows(rows, qEmb, parse, angle);
    var scored := SortDesc(raw);
    SortDescSpec(raw);
    ScoredRowsSound(rows, qEmb, parse, angle);
    ScoredRowsCount(rows, qEmb, parse, angle);
    assert scored[0] in multiset(raw);
    forall q | q in rows && Score(q, qEmb, parse, angle).Some?
      ensures Score(q, qEmb, parse, angle).value <= scored[0].score
    {
      ScoredRowBelowHead(rows, q, qEmb, parse, angle);
    }
  }

  lemma ScoredRowBelowHead(rows: seq<Product>, q: Product, qEmb: Vector,
                           parse: string -> Option<Vector>, angle: (Vector, Vector) -> real)
    requires q in rows && Score(q, qEmb, parse, angle).Some?
    ensures var scored := SortDesc(ScoredRows(rows, qEmb, parse, angle));
            scored != [] && Score(q, qEmb, parse, angle).value <= scored[0].score
  {
    var raw := ScoredRows(rows, qEmb, parse, angle);
    var scored := SortDesc(raw);
    var i := ScoredIndexOf(rows, q, qEmb, parse, angle);
    SortDescSpec(raw);
    var j := PermutedIndex(raw, scored, i);
    assert scored[0].score >= scored[j].score;
  }

  /** Where a scoring row sits in the scored list. */
  lemma ScoredIndexOf(rows: seq<Product>, q: Product, qEmb: Vector,
                      parse: string -> Option<Vector>, angle: (Vector, Vector) -> real)
    returns (i: nat)
    requires q in rows && Score(q, qEmb, parse, angle).Some?
    ensures var raw := ScoredRows(rows, qEmb, parse, angle);
            i < |raw| && raw[i].row == q && raw[i].score == Score(q, qEmb, parse, angle).value
  {
    var raw := ScoredRows(rows, qEmb, parse, angle);
    ScoredRowsCountOf(rows, q, qEmb, parse, angle);
    i := IndexOfCounted(RowsOf(raw), q);
    ScoredRowsSound(rows, qEmb, parse, angle);
    assert raw[i] in raw;
  }

  lemma IndexOfCounted<T>(s: seq<T>, x: T) returns (i: nat)
    requires multiset(s)[x] > 0
    ensures i < |s| && s[i] == x
  {
    assert x in multiset(s);
    assert x in s;
    var k :| 0 <= k < |s| && s[k] == x;
    i := k;
  }

  lemma PermutedIndex<T>(a: seq<T>, b: seq<T>, i: nat) returns (j: nat)
    requires multiset(a) == multiset(b) && i < |a|
    ensures j < |b| && b[j] == a[i]
  {
    assert a[i] in multiset(b);
    j := IndexOfCounted(b, a[i]);
  }

  /** A row that scores is never lost. */
  lemma ScoringRowKept(rows: seq<Product>, p: Product, qEmb: Vector,
                       parse: string -> Option<Vector>, angle: (Vector, Vector) -> real)
    requires p in rows && Score(p, qEmb, parse, angle).Some?
    ensures |SortDesc(ScoredRows(rows, qEmb, parse, angle))| > 0
  {
    var raw := ScoredRows(rows, qEmb, parse, angle);
    ScoredRowsCount(rows, qEmb, parse, angle);
    SortDescSpec(raw);
    assert p in multiset(RowsOf(raw));
    assert |multiset(SortDesc(raw))| == |multiset(raw)|;
  }

  /** The answer describes a product of the table whose score is the
      highest of all, and there is one whenever some product scores and `k`
      is positive; otherwise it is the fixed sentence. */
  lemma RagAnswerBest(query: string, k: int, embed: string -> Vector, table: seq<Product>,
                      parse: string -> Option<Vector>, angle: (Vector, Vector) -> real)
    ensures var answer := RagAnswerText(query, k, embed, table, parse, angle);
            answer != NoMatch ==>
              exists p :: p in table && Score(p, embed(query), parse, angle).Some?
                          && answer == Describe(p)
                          && forall q :: q in table && Score(q, embed(query), parse, angle).Some? ==>
                                           Score(q, embed(query), parse, angle).value
                                           <= Score(p, embed(query), parse, angle).value
    ensures k > 0 && (exists p :: p in table && Score(p, embed(query), parse, angle).Some?) ==>
              RagAnswerText(query, k, embed, table, parse, angle) != NoMatch
  {
    var qEmb := embed(query);
    var rows := WithEmbedding(table);
    var raw := ScoredRows(rows, qEmb, parse, angle);
    var scored := SortDesc(raw);
    SortDescSpec(raw);
    TopKSpec(scored, k);
    var top := SelectTopK(scored, k);
    if top != [] {
      SortedHeadIsBest(rows, qEmb, parse, angle);
      var best := scored[0];
      assert top[0] == best;
      forall q | q in table && Score(q, qEmb, parse, angle).Some?
        ensures Score(q, qEmb, parse, angle).value <= Score(best.row, qEmb, parse, angle).value
      {
        assert q in rows;
      }
    }
    if k > 0 && exists p :: p in table && Score(p, qEmb, parse, angle).Some? {
      var p :| p in table && Score(p, qEmb, parse, angle).Some?;
      ScoringRowKept(rows, p, qEmb, parse, angle);
    }
  }

  // ---------------------------------------------------------------------
  // get_api_key and rag_answer_with_llm
  // ---------------------------------------------------------------------

  /** The variable `get_api_key(service)` reads. */
  function ApiKeyName(service: string): string
  {
    Upper(service) + "_API_KEY"
  }

  /** `get_api_key`: the variable's value (None when unset); it raises only
      when the key is required and not set to a non-empty value. */
  function GetApiKey(service: string, required: bool, env: Env): (r: Result<Option<string>, string>)
    ensures r.Err? <==> required && !KeySet(env, ApiKeyName(service))
    ensures r.Ok? ==> r.value == Getenv(env, ApiKeyName(service))
  {
    var name := ApiKeyName(service);
    var key := Getenv(env, name);
    if required && !(key.Some? && key.value != "") then
      Err(name + " environment variable is required but not set")
    else Ok(key)
  }

  /** The service name `rag_answer_with_llm` derives from a variable name. */
  function ServiceName(envVar: string): string
  {
    Replace(Lower(envVar), "_api_key", "")
  }

  lemma {:induction false} ReplaceSuffix(s: string, t: string)
    requires t != "" && t[0] !in s
    ensures Replace(s + t, t, "") == s
  {
    if s == [] {
      assert (s + t)[..|t|] == t;
      assert (s + t)[|t|..] == [];
    } else {
      assert (s + t)[0] == s[0];
      assert (s + t)[1..] == s[1..] + t;
      ReplaceSuffix(s[1..], t);
    }
  }

  lemma {:induction false} UpperLower(s: string)
    requires forall i :: 0 <= i < |s| ==> IsUpper(s[i])
    ensures Upper(Lower(s)) == s
  {
  }

  lemma LowerKeySuffix()
    ensures Lower("_API_KEY") == "_api_key"
  {
  }

  /** Lower-casing a variable `NAME_API_KEY`, dropping "_api_key" and
      upper-casing again gives back the same variable, for any name of
      capital letters. */
  lemma ServiceNameRoundTrip(base: string)
    requires forall i :: 0 <= i < |base| ==> IsUpper(base[i])
    ensures ApiKeyName(ServiceName(base + "_API_KEY")) == base + "_API_KEY"
  {
    var low := Lower(base);
    assert Lower(base + "_API_KEY") == low + "_api_key" by {
      LowerAppend(base, "_API_KEY");
      LowerKeySuffix();
    }
    assert ServiceName(base + "_API_KEY") == low by {
      assert '_' !in low;
      ReplaceSuffix(low, "_api_key");
    }
    UpperLower(base);
  }

  /** The names the provider variables are built from. */
  const ProviderBases: seq<string> := ["OPENAI", "GEMINI", "ANTHROPIC"]

  lemma ProviderKeyName(i: nat, base: string)
    requires i < |LlmProviders| && base == ProviderBases[i]
    ensures ApiKeyName(ServiceName(LlmProviders[i].1)) == LlmProviders[i].1
  {
    assert forall j :: 0 <= j < |base| ==> IsUpper(base[j]);
    assert base + "_API_KEY" == LlmProviders[i].1;
    ServiceNameRoundTrip(base);
  }

  /** Each provider's key is read from its own variable. */
  lemma ProviderKeyNames()
    ensures forall i :: 0 <= i < |LlmProviders| ==>
              ApiKeyName(ServiceName(LlmProviders[i].1)) == LlmProviders[i].1
  {
    forall i | 0 <= i < |LlmProviders|
      ensures ApiKeyName(ServiceName(LlmProviders[i].1)) == LlmProviders[i].1
    {
      ProviderKeyName(i, ProviderBases[i]);
    }
  }

  const LlmError: string :=
    "No supported LLM API key found. Please set OPENAI_API_KEY, GEMINI_API_KEY, or ANTHROPIC_API_KEY"

  /** A provider call: (provider, key, base answer, query) gives the answer,
      or None when it raises. */
  type LlmCall = (string, string, string, string) -> Option<string>

  /** The provider's key is set and its call returns. */
  predicate Answers(env: Env, call: LlmCall, base: string, query: string, p: (string, string))
  {
    KeySet(env, p.1) && call(p.0, env[p.1], base, query).Some?
  }

  /** The first provider that answers, or the error dictionary. */
  function ProviderChain(providers: seq<(string, string)>, env: Env, call: LlmCall,
                         base: string, query: string): (r: map<string, string>)
    ensures r.Keys == {"error"} || r.Keys == {"answer"}
    ensures "error" in r ==> r["error"] == LlmError
  {
    if providers == [] then map["error" := LlmError]
    else if Answers(env, call, base, query, providers[0]) then
      map["answer" := call(providers[0].0, env[providers[0].1], base, query).value]
    else ProviderChain(providers[1..], env, call, base, query)
  }

  /** The chain answers with the first provider in order that has a key
      and does not raise, and returns the fixed error exactly when none
      does. */
  lemma {:induction false} ProviderChainSpec(providers: seq<(string, string)>, env: Env, call: LlmCall,
                                             base: string, query: string)
    ensures var r := ProviderChain(providers, env, call, base, query);
            r == map["error" := LlmError] <==>
              forall i :: 0 <= i < |providers| ==> !Answers(env, call, base, query, providers[i])
    ensures var r := ProviderChain(providers, env, call, base, query);
            r != map["error" := LlmError] ==>
              exists i :: 0 <= i < |providers| && Answers(env, call, base, query, providers[i])
                          && r == map["answer" := call(providers[i].0, env[providers[i].1], base, query).value]
                          && forall j :: 0 <= j < i ==> !Answers(env, call, base, query, providers[j])
  {
    if providers != [] {
      var rest := providers[1..];
      ProviderChainSpec(rest, env, call, base, query);
      if Answers(env, call, base, query, providers[0]) {
        var a := call(providers[0].0, env[providers[0].1], base, query).value;
        assert "error" !in map["answer" := a];
      } else {
        forall i | 0 <= i < |rest| ensures rest[i] == providers[i + 1] { }
        if ProviderChain(providers, env, call, base, query) != map["error" := LlmError] {
          var i :| 0 <= i < |rest| && Answers(env, call, base, query, rest[i])
                   && ProviderChain(rest, env, call, base, query)
                      == map["answer" := call(rest[i].0, env[rest[i].1], base, query).value]
                   && forall j :: 0 <= j < i ==> !Answers(env, call, base, query, rest[j]);
          assert forall j :: 0 <= j < i + 1 ==> !Answers(env, call, base, query, providers[j]);
        }
      }
    }
  }

  /** The provider loop of `rag_answer_with_llm`: read each provider's key
      through `get_api_key`, skip it when the key is unset or the call
      raises, return the first answer, else the error dictionary. */
  method TryProviders(providers: seq<(string, string)>, env: Env, call: LlmCall,
                      base: string, query: string)
    returns (result: map<string, string>)
    requires forall i :: 0 <= i < |providers| ==> ApiKeyName(ServiceName(providers[i].1)) == providers[i].1
    ensures result == ProviderChain(providers, env, call, base, query)
  {
    var i := 0;
    while i < |providers|
      invariant 0 <= i <= |providers|
      invariant ProviderChain(providers, env, call, base, query)
                == ProviderChain(providers[i..], env, call, base, query)
    {
      var (providerName, envVar) := providers[i];
      var apiKey := GetApiKey(ServiceName(envVar), false, env).value;
      if apiKey.Some? && apiKey.value != "" {
        var outcome := call(providerName, apiKey.value, base, query);
        if outcome.Some? {
          result := map["answer" := outcome.value];
          return;
        }
      }
      assert providers[i..][1..] == providers[i + 1..];
      i := i + 1;
    }
    result := map["error" := LlmError];
  }

  /** `rag_answer_with_llm`: without `use_llm` it is `rag_answer`; with it,
      the base answer goes to openai, gemini and anthropic in that order. */
  method RagAnswerWithLlm(query: string, k: int, useLlm: bool, embed: string -> Vector,
                          table: seq<Product>, parse: string -> Option<Vector>,
                          angle: (Vector, Vector) -> real, env: Env, call: LlmCall)
    returns (result: map<string, string>)
    ensures !useLlm ==> result == map["answer" := RagAnswerText(query, k, embed, table, parse, angle)]
    ensures useLlm ==>
              result == ProviderChain(LlmProviders, env, call,
                                      RagAnswerText(query, k, embed, table, parse, angle), query)
  {
    if useLlm {
      var ragResult := RagAnswer(query, k, embed, table, parse, angle);
      var base := ragResult["answer"];
      ProviderKeyNames();
      result := TryProviders(LlmProviders, env, call, base, query);
    } else {
      result := RagAnswer(query, k, embed, table, parse, angle);
    }
  }

  // ---------------------------------------------------------------------
  // rebuild_all_product_embeddings
  // ---------------------------------------------------------------------

  /** The text embedded for a product. */
  function DocumentText(p: Product): (r: string)
    ensures |r| == |p.name| + 7 + |DecimalText(p.price)| + 13 + |p.description|
    ensures r[..|p.name|] == p.name && r[|p.name|..|p.name| + 7] == " Price "
    ensures r[|p.name| + 7..|r| - |p.description| - 13] == DecimalText(p.price)
    ensures r[|r| - |p.description| - 13..|r| - |p.description|] == " Description "
    ensures r[|r| - |p.description|..] == p.description
  {
    var head := p.name + " Price ";
    var price := DecimalText(p.price);
    var r := head + price + " Description " + p.description;
    assert r[..|head|] == head && r[|head|..|head| + |price|] == price;
    r
  }

  /** `UPDATE products SET embedding=%s WHERE id=%s`. */
  function SetEmbedding(table: seq<Product>, id: int, emb: string): (r: seq<Product>)
    ensures |r| == |table|
    ensures forall i :: 0 <= i < |table| ==>
              r[i] == if table[i].id == id then table[i].(embedding := Some(emb)) else table[i]
  {
    if table == [] then []
    else [if table[0].id == id then table[0].(embedding := Some(emb)) else table[0]]
         + SetEmbedding(table[1..], id, emb)
  }

  /** Ids are the primary key of the products table. */
  predicate DistinctIds(table: seq<Product>)
  {
    forall i, j :: 0 <= i < j < |table| ==> table[i].id != table[j].id
  }

  /** `rebuild_all_product_embeddings`: every product gets the embedding of
      its own document text, serialised by `dumps`; nothing else changes,
      and the count returned is the number of products. */
  method RebuildAllProductEmbeddings(table: seq<Product>, embed: string -> Vector,
                                     dumps: Vector -> string)
    returns (newTable: seq<Product>, updated: nat)
    requires DistinctIds(table)
    ensures updated == |table| && |newTable| == |table|
    ensures forall i :: 0 <= i < |table| ==>
              newTable[i] == table[i].(embedding := Some(dumps(embed(DocumentText(table[i])))))
  {
    var rows := table;
    newTable := table;
    updated := 0;
    for i := 0 to |rows|
      invariant updated == i && |newTable| == |table|
      invariant forall j :: 0 <= j < |table| ==>
                  newTable[j] == if j < i then table[j].(embedding := Some(dumps(embed(DocumentText(table[j])))))
                                 else table[j]
    {
      var r := rows[i];
      var text := DocumentText(r);
      var emb := embed(text);
      var embJson := dumps(emb);
      newTable := SetEmbedding(newTable, r.id, embJson);
      updated := updated + 1;
    }
  }
}
