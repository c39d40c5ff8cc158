/** The semantic router: prototypes from exemplars, and the category of the best score. */
module SemanticRouter {
  import opened GatewayModel
  import opened Vectors
  import opened Texts

  datatype CategoryConfig = CategoryConfig(name: string, exemplars: seq<string>, targetModels: seq<string>)

  datatype CategoryPrototype = CategoryPrototype(name: string, targetModels: seq<string>, vector: seq<real>)

  /** No vector is longer than the first; a longer one would not fit the prototype, a shorter one adds what it has. */
  ghost predicate Fits(vecs: seq<seq<real>>)
  {
    forall i :: 0 <= i < |vecs| ==> |vecs[i]| <= |vecs[0]|
  }

  // ----- Prototypes -----

  ghost function Column(vecs: seq<seq<real>>, d: nat): real
  {
    var n := |vecs| - 1;
    if |vecs| == 0 then 0.0
    else if d < |vecs[n]| then Column(vecs[..n], d) + vecs[n][d]
    else Column(vecs[..n], d)
  }

  /** The sum of the exemplar vectors. */
  ghost function SumOf(vecs: seq<seq<real>>): (r: seq<real>)
    requires |vecs| > 0
    ensures |r| == |vecs[0]|
    ensures forall d {:trigger r[d]} :: 0 <= d < |r| ==> r[d] == Column(vecs, d)
  {
    seq(|vecs[0]|, d requires 0 <= d < |vecs[0]| => Column(vecs, d))
  }

  /** The average, normalised. */
  ghost function PrototypeOf(sqrt: SqrtFn, vecs: seq<seq<real>>): seq<real>
    requires IsSqrt(sqrt) && |vecs| > 0
  {
    Normalized(sqrt, Scaled(1.0 / |vecs| as real, SumOf(vecs)))
  }

  method AddInto(prototype: array<real>, v: seq<real>)
    requires |v| <= prototype.Length
    modifies prototype
    ensures forall d :: 0 <= d < prototype.Length ==>
              prototype[d] == if d < |v| then old(prototype[d]) + v[d] else old(prototype[d])
  {
    for i := 0 to |v|
      invariant forall d :: 0 <= d < i ==> prototype[d] == old(prototype[d]) + v[d]
      invariant forall d :: i <= d < prototype.Length ==> prototype[d] == old(prototype[d])
    {
      prototype[i] := prototype[i] + v[i];
    }
  }

  method DivideBy(prototype: array<real>, n: real)
    requires n != 0.0
    modifies prototype
    ensures prototype[..] == Scaled(1.0 / n, old(prototype[..]))
  {
    ghost var scaled := Scaled(1.0 / n, old(prototype[..]));
    for i := 0 to prototype.Length
      invariant forall d :: 0 <= d < i ==> prototype[d] == scaled[d]
      invariant forall d :: i <= d < prototype.Length ==> prototype[d] == old(prototype[d])
    {
      DivideIsScale(prototype[i], n);
      prototype[i] := prototype[i] / n;
    }
    assert prototype[..] == scaled;
  }

  method BuildPrototype(sqrt: SqrtFn, vecs: seq<seq<real>>) returns (prototype: array<real>)
    requires IsSqrt(sqrt) && |vecs| > 0 && Fits(vecs)
    ensures prototype[..] == PrototypeOf(sqrt, vecs)
  {
    var dim := |vecs[0]|;
    prototype := new real[dim](_ => 0.0);
    for k := 0 to |vecs|
      invariant forall d :: 0 <= d < dim ==> prototype[d] == Column(vecs[..k], d)
    {
      assert vecs[..k + 1][..k] == vecs[..k];
      AddInto(prototype, vecs[k]);
    }
    assert vecs[..|vecs|] == vecs;
    assert prototype[..] == SumOf(vecs);
    DivideBy(prototype, |vecs| as real);
    prototype := NormalizeVector(sqrt, prototype);
  }

  /** Averaging and normalising change no score against any query. */
  lemma PrototypeKeepsScores(sqrt: SqrtFn, vecs: seq<seq<real>>, query: seq<real>)
    requires IsSqrt(sqrt) && |vecs| > 0
    ensures Cosine(sqrt, query, PrototypeOf(sqrt, vecs)) == Cosine(sqrt, query, SumOf(vecs))
  {
    var c := 1.0 / |vecs| as real;
    var average := Scaled(c, SumOf(vecs));
    assert c * (|vecs| as real) == 1.0;
    NonNegativeFactor(|vecs| as real, c);
    CosineSymmetric(sqrt, query, PrototypeOf(sqrt, vecs));
    NormalizedKeepsCosine(sqrt, average, query);
    CosineIgnoresScale(sqrt, c, SumOf(vecs), query);
    CosineSymmetric(sqrt, query, SumOf(vecs));
  }

  /** The exemplar vectors of every category fit. */
  ghost predicate EmbedsFitting(embed: Embedder)
  {
    forall texts :: embed(texts).Some? ==> Fits(embed(texts).value)
  }

  /** The exemplar vectors of every category that has some, in order; nothing when the embedder fails. */
  ghost function Exemplars(embed: Embedder, categories: seq<CategoryConfig>)
    : (r: Option<seq<(CategoryConfig, seq<seq<real>>)>>)
    ensures r.Some? ==> forall k {:trigger r.value[k]} :: 0 <= k < |r.value| ==> |r.value[k].1| > 0
  {
    if |categories| == 0 then Some([])
    else
      var cat, before := categories[|categories| - 1], Exemplars(embed, categories[..|categories| - 1]);
      match before
      case None => None
      case Some(found) =>
        match embed(cat.exemplars)
        case None => None
        case Some(vecs) => if |vecs| == 0 then before else Some(found + [(cat, vecs)])
  }

  /** What is built from them: one normalised average per category. */
  ghost function Built(sqrt: SqrtFn, found: seq<(CategoryConfig, seq<seq<real>>)>): (r: seq<CategoryPrototype>)
    requires IsSqrt(sqrt) && forall k :: 0 <= k < |found| ==> |found[k].1| > 0
    ensures |r| == |found|
    ensures forall k {:trigger r[k]} :: 0 <= k < |r| ==>
              r[k] == CategoryPrototype(found[k].0.name, found[k].0.targetModels, PrototypeOf(sqrt, found[k].1))
  {
    seq(|found|, k requires 0 <= k < |found| =>
      CategoryPrototype(found[k].0.name, found[k].0.targetModels, PrototypeOf(sqrt, found[k].1)))
  }

  /** The same categories with the raw sums of their exemplar vectors. */
  ghost function Raw(found: seq<(CategoryConfig, seq<seq<real>>)>): (r: seq<CategoryPrototype>)
    requires forall k :: 0 <= k < |found| ==> |found[k].1| > 0
    ensures |r| == |found|
    ensures forall k {:trigger r[k]} :: 0 <= k < |r| ==>
              r[k] == CategoryPrototype(found[k].0.name, found[k].0.targetModels, SumOf(found[k].1))
  {
    seq(|found|, k requires 0 <= k < |found| =>
      CategoryPrototype(found[k].0.name, found[k].0.targetModels, SumOf(found[k].1)))
  }

  lemma {:induction false} FailureStays(embed: Embedder, categories: seq<CategoryConfig>, n: nat)
    requires n <= |categories| && Exemplars(embed, categories[..n]).None?
    ensures Exemplars(embed, categories).None?
  {
    if n == |categories| {
      assert categories[..n] == categories;
    } else {
      assert categories[..|categories| - 1][..n] == categories[..n];
      FailureStays(embed, categories[..|categories| - 1], n);
    }
  }

  /** What NewSemanticRouter answers: nothing on an embedder error, no categories without an embedder. */
  ghost function RouterOf(sqrt: SqrtFn, embedder: Option<Embedder>,
                          categories: seq<CategoryConfig>)
    : Option<seq<CategoryPrototype>>
    requires IsSqrt(sqrt)
  {
    if embedder.None? then Some([])
    else
      match Exemplars(embedder.value, categories)
      case None => None
      case Some(found) => Some(Built(sqrt, found))
  }

  method NewSemanticRouter(sqrt: SqrtFn, embedder: Option<Embedder>, categories: seq<CategoryConfig>)
    returns (built: Option<seq<CategoryPrototype>>)
    requires IsSqrt(sqrt) && (embedder.Some? ==> EmbedsFitting(embedder.value))
    ensures built == RouterOf(sqrt, embedder, categories)
  {
    if embedder.None? || |categories| == 0 {
      return Some([]);
    }
    var embed := embedder.value;
    var cats: seq<CategoryPrototype> := [];
    ghost var found: seq<(CategoryConfig, seq<seq<real>>)> := [];
    for k := 0 to |categories|
      invariant Exemplars(embed, categories[..k]) == Some(found)
      invariant cats == Built(sqrt, found)
    {
      var cat := categories[k];
      assert categories[..k + 1][..k] == categories[..k];
      var vecs := embed(cat.exemplars);
      if vecs.None? {
        FailureStays(embed, categories, k + 1);
        return None;
      }
      if |vecs.value| == 0 {
        continue;
      }
      var prototype := BuildPrototype(sqrt, vecs.value);
      assert (found + [(cat, vecs.value)])[..|found|] == found;
      found := found + [(cat, vecs.value)];
      cats := cats + [CategoryPrototype(cat.name, cat.targetModels, prototype[..])];
    }
    assert categories[..|categories|] == categories;
    return Some(cats);
  }

  // ----- The decision -----

  ghost predicate Eligible(scores: seq<real>, threshold: real, k: nat)
  {
    k < |scores| && scores[k] >= threshold && scores[k] > 0.0
  }

  /** `k` is the first of the largest eligible scores. */
  ghost predicate IsWinner(scores: seq<real>, threshold: real, k: nat)
  {
    && Eligible(scores, threshold, k)
    && (forall j :: 0 <= j < |scores| && Eligible(scores, threshold, j) ==> scores[j] <= scores[k])
    && (forall j :: 0 <= j < k && Eligible(scores, threshold, j) ==> scores[j] < scores[k])
  }

  ghost predicate NoWinner(scores: seq<real>, threshold: real)
  {
    forall j :: 0 <= j < |scores| ==> !Eligible(scores, threshold, j)
  }

  ghost function Scores(sqrt: SqrtFn, query: seq<real>, vectors: seq<seq<real>>): (s: seq<real>)
    requires IsSqrt(sqrt)
    ensures |s| == |vectors|
    ensures forall k {:trigger s[k]} :: 0 <= k < |s| ==> s[k] == Cosine(sqrt, query, vectors[k])
  {
    seq(|vectors|, k requires 0 <= k < |vectors| => Cosine(sqrt, query, vectors[k]))
  }

  ghost function VectorsOf(categories: seq<CategoryPrototype>): (v: seq<seq<real>>)
    ensures |v| == |categories|
    ensures forall k {:trigger v[k]} :: 0 <= k < |v| ==> v[k] == categories[k].vector
  {
    if |categories| == 0 then []
    else VectorsOf(categories[..|categories| - 1]) + [categories[|categories| - 1].vector]
  }

  /** The answer is that of a winning category. */
  ghost predicate AnswersWinner(
    categories: seq<CategoryPrototype>, scores: seq<real>, threshold: real, models: seq<string>, category: string,
    confidence: real)
    requires |scores| == |categories|
  {
    exists k: nat :: IsWinner(scores, threshold, k) && confidence == scores[k]
                     && models == categories[k].targetModels && category == categories[k].name
  }

  /** The scores of a query text; `None` when it has no vector, or none is asked for. */
  ghost function QueryScores(
    sqrt: SqrtFn, embedder: Option<Embedder>, categories: seq<CategoryPrototype>, maxPromptLength: int,
    text: string)
    : (r: Option<seq<real>>)
    requires IsSqrt(sqrt)
    ensures r.Some? ==> |r.value| == |categories|
  {
    if embedder.None? || |categories| == 0 || text == "" || (maxPromptLength > 0 && |text| > maxPromptLength) then None
    else
      var vecs := embedder.value([text]);
      if vecs.None? || |vecs.value| == 0 then None else Some(Scores(sqrt, vecs.value[0], VectorsOf(categories)))
  }

  /** Empty exactly when there are no scores or none is eligible; otherwise the winning category answers. */
  method Route(sqrt: SqrtFn, embedder: Option<Embedder>, categories: seq<CategoryPrototype>, threshold: real,
               maxPromptLength: int, messages: seq<Message>)
    returns (models: seq<string>, category: string, confidence: real)
    requires IsSqrt(sqrt)
    ensures var scores := QueryScores(sqrt, embedder, categories, maxPromptLength, LastUserText(messages));
            if scores.None? || NoWinner(scores.value, threshold)
            then models == [] && category == "" && confidence == 0.0
            else AnswersWinner(categories, scores.value, threshold, models, category, confidence)
  {
    hide Cosine;
    hide Scores;
    hide VectorsOf;
    hide LastUserText;
    models, category, confidence := [], "", 0.0;
    ghost var winner := -1;
    if embedder.None? || |categories| == 0 {
      return;
    }
    var text := RouterText(messages);
    if text == "" {
      return;
    }
    if maxPromptLength > 0 && |text| > maxPromptLength {
      return;
    }
    var vecs := embedder.value([text]);
    if vecs.None? || |vecs.value| == 0 {
      return;
    }
    ghost var scores := Scores(sqrt, vecs.value[0], VectorsOf(categories));
    for k := 0 to |categories|
      invariant winner < 0 ==> models == [] && category == "" && confidence == 0.0
      invariant winner < 0 ==> forall j :: 0 <= j < k ==> !Eligible(scores, threshold, j)
      invariant winner >= 0 ==>
                  && winner < k && Eligible(scores, threshold, winner) && confidence == scores[winner]
                  && models == categories[winner].targetModels && category == categories[winner].name
                  && (forall j :: 0 <= j < k && Eligible(scores, threshold, j) ==> scores[j] <= scores[winner])
                  && (forall j :: 0 <= j < winner && Eligible(scores, threshold, j) ==> scores[j] < scores[winner])
    {
      var score := CosineSimilarity(sqrt, vecs.value[0], categories[k].vector);
      assert score == scores[k];
      if score >= threshold && score > confidence {
        confidence := score;
        category := categories[k].name;
        models := categories[k].targetModels;
        winner := k;
      }
    }
  }

  lemma SameScores(sqrt: SqrtFn, query: seq<real>, found: seq<(CategoryConfig, seq<seq<real>>)>)
    requires IsSqrt(sqrt) && forall k :: 0 <= k < |found| ==> |found[k].1| > 0
    ensures Scores(sqrt, query, VectorsOf(Built(sqrt, found))) == Scores(sqrt, query, VectorsOf(Raw(found)))
  {
    hide Cosine;
    hide PrototypeOf;
    hide SumOf;
    hide Scores;
    hide Built;
    hide Raw;
    hide VectorsOf;
    var a, b := Scores(sqrt, query, VectorsOf(Built(sqrt, found))), Scores(sqrt, query, VectorsOf(Raw(found)));
    forall k | 0 <= k < |a|
      ensures a[k] == b[k]
    {
      PrototypeKeepsScores(sqrt, found[k].1, query);
    }
    assert a == b;
  }

  /** So every query text has the same scores. */
  lemma SameQueryScores(
    sqrt: SqrtFn, embedder: Option<Embedder>, found: seq<(CategoryConfig, seq<seq<real>>)>, maxPromptLength: int,
    text: string)
    requires IsSqrt(sqrt) && forall k :: 0 <= k < |found| ==> |found[k].1| > 0
    ensures QueryScores(sqrt, embedder, Built(sqrt, found), maxPromptLength, text)
         == QueryScores(sqrt, embedder, Raw(found), maxPromptLength, text)
  {
    hide Cosine;
    hide Scores;
    hide Built;
    hide Raw;
    hide VectorsOf;
    if embedder.Some? && embedder.value([text]).Some? && |embedder.value([text]).value| > 0 {
      SameScores(sqrt, embedder.value([text]).value[0], found);
    }
  }

  /** Only the vectors differ. */
  ghost predicate SameTargets(a: seq<CategoryPrototype>, b: seq<CategoryPrototype>)
  {
    |a| == |b| && forall k :: 0 <= k < |a| ==> a[k].name == b[k].name && a[k].targetModels == b[k].targetModels
  }

  lemma WinnerAnswersToo(
    a: seq<CategoryPrototype>, b: seq<CategoryPrototype>, scores: seq<real>, threshold: real,
    models: seq<string>, category: string, confidence: real)
    requires |a| == |scores| && SameTargets(a, b) && AnswersWinner(a, scores, threshold, models, category, confidence)
    ensures AnswersWinner(b, scores, threshold, models, category, confidence)
  {
    var k: nat :| IsWinner(scores, threshold, k) && confidence == scores[k]
                  && models == a[k].targetModels && category == a[k].name;
    assert models == b[k].targetModels && category == b[k].name;
  }

  /**
   * The router built from averaged and normalised prototypes answers every request as one on the raw sums of
   * the exemplar vectors would: the same scores, so the same answers are a winner's, and none in the same cases.
   */
  lemma PrototypesKeepDecision(
    sqrt: SqrtFn, embedder: Option<Embedder>, configs: seq<CategoryConfig>, built: seq<CategoryPrototype>,
    found: seq<(CategoryConfig, seq<seq<real>>)>, maxPromptLength: int, text: string, threshold: real,
    models: seq<string>, category: string, confidence: real)
    requires IsSqrt(sqrt) && embedder.Some? && RouterOf(sqrt, embedder, configs) == Some(built)
    requires Exemplars(embedder.value, configs) == Some(found)
    ensures QueryScores(sqrt, embedder, built, maxPromptLength, text)
         == QueryScores(sqrt, embedder, Raw(found), maxPromptLength, text)
    ensures var scores := QueryScores(sqrt, embedder, built, maxPromptLength, text);
            scores.Some? ==>
              (AnswersWinner(built, scores.value, threshold, models, category, confidence)
               <==> AnswersWinner(Raw(found), scores.value, threshold, models, category, confidence))
  {
    hide QueryScores;
    hide AnswersWinner;
    hide PrototypeOf;
    hide SumOf;
    SameQueryScores(sqrt, embedder, found, maxPromptLength, text);
    var scores, raw := QueryScores(sqrt, embedder, built, maxPromptLength, text), Raw(found);
    assert SameTargets(built, raw) && SameTargets(raw, built);
    if scores.Some? {
      if AnswersWinner(built, scores.value, threshold, models, category, confidence) {
        WinnerAnswersToo(built, raw, scores.value, threshold, models, category, confidence);
      }
      if AnswersWinner(raw, scores.value, threshold, models, category, confidence) {
        WinnerAnswersToo(raw, built, scores.value, threshold, models, category, confidence);
      }
    }
  }

  // ----- What the specification functions say -----

  /** Some category wins exactly when one scores above zero and not below the threshold; a score on it suffices. */
  lemma SomeoneWinsIff(scores: seq<real>, threshold: real)
    ensures (exists k :: IsWinner(scores, threshold, k))
            <==> exists j :: 0 <= j < |scores| && scores[j] >= threshold && scores[j] > 0.0
  {
    if j :| 0 <= j < |scores| && scores[j] >= threshold && scores[j] > 0.0 {
      var k := FirstWinner(scores, threshold, j);
      assert IsWinner(scores, threshold, k);
    }
  }

  lemma {:induction false} FirstWinner(scores: seq<real>, threshold: real, j: nat) returns (k: nat)
    requires Eligible(scores, threshold, j)
    ensures IsWinner(scores, threshold, k)
  {
    var n := |scores| - 1;
    var init := scores[..n];
    if i :| 0 <= i < n && Eligible(scores, threshold, i) {
      assert Eligible(init, threshold, i);
      k := FirstWinner(init, threshold, i);
      assert forall m :: 0 <= m < n ==> init[m] == scores[m];
      assert forall m :: 0 <= m < n && Eligible(scores, threshold, m) ==> Eligible(init, threshold, m);
      if Eligible(scores, threshold, n) && scores[n] > scores[k] {
        k := n;
      }
    } else {
      k := j;
    }
  }

  /** An answer is that of the first category of the greatest score of all, with that score as its confidence. */
  lemma AnswerIsGreatest(categories: seq<CategoryPrototype>, scores: seq<real>, threshold: real, models: seq<string>,
                         category: string, confidence: real)
    requires |scores| == |categories| && AnswersWinner(categories, scores, threshold, models, category, confidence)
    ensures confidence >= threshold && confidence > 0.0
    ensures exists k: nat :: k < |categories| && scores[k] == confidence
                             && category == categories[k].name && models == categories[k].targetModels
                             && (forall j :: 0 <= j < |scores| ==> scores[j] <= confidence)
                             && (forall j :: 0 <= j < k ==> scores[j] < confidence)
  {
    var k: nat :| IsWinner(scores, threshold, k) && confidence == scores[k]
                  && models == categories[k].targetModels && category == categories[k].name;
    forall j | 0 <= j < |scores|
      ensures scores[j] <= confidence && (j < k ==> scores[j] < confidence)
    {
      assert Eligible(scores, threshold, j) || scores[j] < threshold || scores[j] <= 0.0;
    }
  }

  /** Every exemplar is added, each to its own length. */
  lemma EveryExemplarCounts(vecs: seq<seq<real>>, v: seq<real>, d: nat)
    requires |vecs| > 0 && d < |vecs[0]|
    ensures SumOf(vecs + [v])[d] == SumOf(vecs)[d] + (if d < |v| then v[d] else 0.0)
    ensures SumOf([v]) == v
  {
    assert (vecs + [v])[..|vecs|] == vecs;
    assert (vecs + [v])[0] == vecs[0];
    forall i | 0 <= i < |v|
      ensures SumOf([v])[i] == v[i]
    {
      assert [v][..0] == [];
      assert Column([v], i) == Column([], i) + v[i];
    }
    assert SumOf([v]) == v;
  }

  /** The query is the code of exactly this text, and its scores are its cosines with the prototypes. */
  lemma ScoresAreOfText(sqrt: SqrtFn, embedder: Option<Embedder>, categories: seq<CategoryPrototype>,
                        maxPromptLength: int, text: string, code: string -> seq<real>)
    requires IsSqrt(sqrt) && embedder.Some? && forall t :: embedder.value([t]) == Some([code(t)])
    ensures var scores := QueryScores(sqrt, embedder, categories, maxPromptLength, text);
            && (scores.Some? <==> |categories| > 0 && text != "" && (maxPromptLength <= 0 || |text| <= maxPromptLength))
            && (scores.Some? ==> |scores.value| == |categories| && forall k :: 0 <= k < |categories| ==>
                  scores.value[k] == Cosine(sqrt, code(text), categories[k].vector))
  {
  }
}
