/** The preference filtering of `PromptManager.prefer_query`: from the templates
    a storage query returned, keep those in the preferred language, then those
    for the preferred model, each time only if some template matches. */
module PromptManager {
  import opened Wrappers
  import opened Strings
  import opened StoragePrompt

  /** `a` is `b` with some elements removed, order kept. */
  predicate IsSubseq<T(==)>(a: seq<T>, b: seq<T>)
    decreases |b|
  {
    a == [] || (b != [] && ((a[0] == b[0] && IsSubseq(a[1..], b[1..])) || IsSubseq(a, b[1..])))
  }

  lemma SubseqRefl<T>(a: seq<T>)
    ensures IsSubseq(a, a)
  {
  }

  /** Every element of a subsequence is an element of the whole. */
  lemma {:induction false} SubseqMem<T>(a: seq<T>, b: seq<T>, k: int)
    requires IsSubseq(a, b) && 0 <= k < |a|
    ensures a[k] in b
    decreases |b|
  {
    if a[0] == b[0] && IsSubseq(a[1..], b[1..]) {
      if k > 0 {
        SubseqMem(a[1..], b[1..], k - 1);
      }
    } else {
      SubseqMem(a, b[1..], k);
    }
  }

  lemma {:induction false} SubseqTrans<T>(a: seq<T>, b: seq<T>, c: seq<T>)
    requires IsSubseq(a, b) && IsSubseq(b, c)
    ensures IsSubseq(a, c)
    decreases |c|
  {
    if a != [] {
      if IsSubseq(b, c[1..]) {
        SubseqTrans(a, b, c[1..]);
      } else if a[0] == b[0] && IsSubseq(a[1..], b[1..]) {
        SubseqTrans(a[1..], b[1..], c[1..]);
      } else {
        SubseqTrans(a, b[1..], c[1..]);
      }
    }
  }

  /** The two preferences. */
  datatype Field = Language | Model

  function FieldOf(q: StorageTemplate, f: Field): Option<string> {
    match f
    case Language => q.promptLanguage
    case Model => q.model
  }

  /** The template has the field set, and it equals the preference ignoring case:
      same length, and equal character by character once both are lower-cased. */
  predicate Matches(q: StorageTemplate, f: Field, pref: string): (r: bool)
    ensures r <==>
      && Truthy(FieldOf(q, f))
      && |FieldOf(q, f).value| == |pref|
      && forall i :: 0 <= i < |pref| ==> LowerChar(FieldOf(q, f).value[i]) == LowerChar(pref[i])
  {
    Truthy(FieldOf(q, f)) && Lower(FieldOf(q, f).value) == Lower(pref)
  }

  /** Some template matches the preference. */
  predicate AnyMatch(qs: seq<StorageTemplate>, f: Field, pref: string) {
    exists k :: 0 <= k < |qs| && Matches(qs[k], f, pref)
  }

  /** The list comprehension: the matching templates in their order. With
      `KeepCounts` the contract fixes the result: a subsequence of matching
      templates that keeps every matching template as often as it occurs. */
  function Keep(qs: seq<StorageTemplate>, f: Field, pref: string): (r: seq<StorageTemplate>)
    ensures IsSubseq(r, qs)
    ensures forall k :: 0 <= k < |r| ==> Matches(r[k], f, pref)
    decreases |qs|
  {
    if qs == [] then []
    else
      var rest := Keep(qs[1..], f, pref);
      if Matches(qs[0], f, pref) then [qs[0]] + rest else rest
  }

  /** No matching template is dropped, nor any copy of one. */
  lemma {:induction false} KeepCounts(qs: seq<StorageTemplate>, f: Field, pref: string)
    ensures forall x :: Matches(x, f, pref) ==> multiset(Keep(qs, f, pref))[x] == multiset(qs)[x]
    decreases |qs|
  {
    if qs != [] {
      KeepCounts(qs[1..], f, pref);
      assert qs == [qs[0]] + qs[1..];
    }
  }

  /** The comprehension is empty exactly when no template matches. */
  lemma KeepEmpty(qs: seq<StorageTemplate>, f: Field, pref: string)
    ensures Keep(qs, f, pref) == [] <==> !AnyMatch(qs, f, pref)
  {
    var r := Keep(qs, f, pref);
    if AnyMatch(qs, f, pref) {
      var k :| 0 <= k < |qs| && Matches(qs[k], f, pref);
      KeepCounts(qs, f, pref);
      assert multiset(r)[qs[k]] == multiset(qs)[qs[k]] > 0;
    } else if r != [] {
      SubseqMem(r, qs, 0);
    }
  }

  /** Filtering templates that all match keeps them all. */
  lemma {:induction false} KeepAllMatch(qs: seq<StorageTemplate>, f: Field, pref: string)
    requires forall k :: 0 <= k < |qs| ==> Matches(qs[k], f, pref)
    ensures Keep(qs, f, pref) == qs
    decreases |qs|
  {
    if qs != [] {
      KeepAllMatch(qs[1..], f, pref);
    }
  }

  /** One preference stage: with a truthy preference that some template
      matches, the matching templates; otherwise all of them. */
  function Prefer(qs: seq<StorageTemplate>, f: Field, pref: Option<string>): (r: seq<StorageTemplate>)
    ensures IsSubseq(r, qs)
    ensures qs != [] ==> r != []
    ensures !Truthy(pref) || !AnyMatch(qs, f, pref.value) ==> r == qs
    ensures Truthy(pref) && AnyMatch(qs, f, pref.value) ==>
      && (forall k :: 0 <= k < |r| ==> Matches(r[k], f, pref.value))
      && (forall x :: Matches(x, f, pref.value) ==> multiset(r)[x] == multiset(qs)[x])
  {
    SubseqRefl(qs);
    if !Truthy(pref) then qs
    else
      var kept := Keep(qs, f, pref.value);
      KeepCounts(qs, f, pref.value);
      KeepEmpty(qs, f, pref.value);
      if kept == [] then qs else kept
  }

  /** A template in a stage's result was in its input. */
  lemma PreferMem(qs: seq<StorageTemplate>, f: Field, pref: Option<string>, k: int)
    requires 0 <= k < |Prefer(qs, f, pref)|
    ensures Prefer(qs, f, pref)[k] in qs
  {
    SubseqMem(Prefer(qs, f, pref), qs, k);
  }

  /** Running a stage on its own result changes nothing. */
  lemma PreferIdempotent(qs: seq<StorageTemplate>, f: Field, pref: Option<string>)
    ensures Prefer(Prefer(qs, f, pref), f, pref) == Prefer(qs, f, pref)
  {
    var r := Prefer(qs, f, pref);
    if Truthy(pref) && AnyMatch(qs, f, pref.value) {
      KeepAllMatch(r, f, pref.value);
    } else {
      assert r == qs;
    }
  }

  /** `prefer_query` after the storage query: the language stage, then the model
      stage. */
  function PreferQuery(qs: seq<StorageTemplate>, language: Option<string>, model: Option<string>): (r: seq<StorageTemplate>)
    ensures qs == [] <==> r == []
    ensures IsSubseq(r, qs)
    ensures IsSubseq(r, Prefer(qs, Language, language))
    ensures !Truthy(language) && !Truthy(model) ==> r == qs
    ensures Truthy(language) && AnyMatch(qs, Language, language.value) ==>
      forall k :: 0 <= k < |r| ==> Matches(r[k], Language, language.value)
    ensures var s := Prefer(qs, Language, language);
      Truthy(model) && AnyMatch(s, Model, model.value) ==>
        && (forall k :: 0 <= k < |r| ==> Matches(r[k], Model, model.value))
        && (forall x :: Matches(x, Model, model.value) ==> multiset(r)[x] == multiset(s)[x])
    ensures var s := Prefer(qs, Language, language);
      !Truthy(model) || !AnyMatch(s, Model, model.value) ==> r == s
  {
    var s := Prefer(qs, Language, language);
    var r := Prefer(s, Model, model);
    SubseqTrans(r, s, qs);
    r
  }

  /** When some template matches both preferences, every result matches both. */
  lemma PreferQueryBoth(qs: seq<StorageTemplate>, language: string, model: string)
    requires language != [] && model != []
    requires exists k :: 0 <= k < |qs| && Matches(qs[k], Language, language) && Matches(qs[k], Model, model)
    ensures var r := PreferQuery(qs, Some(language), Some(model));
      forall k :: 0 <= k < |r| ==> Matches(r[k], Language, language) && Matches(r[k], Model, model)
  {
    var k :| 0 <= k < |qs| && Matches(qs[k], Language, language) && Matches(qs[k], Model, model);
    var q := qs[k];
    var s := Prefer(qs, Language, Some(language));
    assert multiset(s)[q] == multiset(qs)[q] > 0;
    var j :| 0 <= j < |s| && s[j] == q;
    assert AnyMatch(s, Model, model);
  }

  /** The language comes first: when no template in the preferred language is
      for the preferred model, the model preference is dropped, even if
      templates in other languages are for that model. */
  lemma LanguageFirst(qs: seq<StorageTemplate>, language: string, model: Option<string>)
    requires language != [] && AnyMatch(qs, Language, language)
    requires Truthy(model) ==> forall k :: 0 <= k < |qs| && Matches(qs[k], Language, language) ==> !Matches(qs[k], Model, model.value)
    ensures PreferQuery(qs, Some(language), model) == Keep(qs, Language, language)
  {
    var s := Prefer(qs, Language, Some(language));
    KeepEmpty(qs, Language, language);
    assert s == Keep(qs, Language, language);
    if Truthy(model) && AnyMatch(s, Model, model.value) {
      var j :| 0 <= j < |s| && Matches(s[j], Model, model.value);
      SubseqMem(s, qs, j);
      assert false;
    }
  }

  /** Asking again with the same preferences gives the same templates. */
  lemma PreferQueryIdempotent(qs: seq<StorageTemplate>, language: Option<string>, model: Option<string>)
    ensures PreferQuery(PreferQuery(qs, language, model), language, model) == PreferQuery(qs, language, model)
  {
    var s := Prefer(qs, Language, language);
    var r := Prefer(s, Model, model);
    if Truthy(language) && AnyMatch(qs, Language, language.value) {
      KeepAllMatch(r, Language, language.value);
    } else if Truthy(language) && AnyMatch(r, Language, language.value) {
      var j :| 0 <= j < |r| && Matches(r[j], Language, language.value);
      SubseqMem(r, qs, j);
      assert false;
    }
    assert Prefer(r, Language, language) == r;
    PreferIdempotent(s, Model, model);
  }
}
