/**
 Packaging descriptions such as "коробка+пленка": the parser
 (internal/repository/repoutils/utils_repository.go) and the strategies behind it
 (internal/domain/packaging.go).
 */
module Packaging {
  import opened Sequences
  import opened Wrappers

  datatype Strategy = Package | Box | Film

  datatype PackagingError = UnknownType | CombinedMainTypes

  /** A lone token gives its own strategy, several tokens a composite. */
  datatype Packing = Single(strategy: Strategy) | Composite(strategies: seq<Strategy>)

  datatype ParseResult = Parsed(packing: Packing) | Rejected(error: PackagingError)

  const PACKAGE_NAME := "пакет"
  const BOX_NAME := "коробка"
  const FILM_NAME := "пленка"

  /** The strategy a token names, if any. */
  function Lookup(token: string): Option<Strategy> {
    if token == PACKAGE_NAME then Some(Package)
    else if token == BOX_NAME then Some(Box)
    else if token == FILM_NAME then Some(Film)
    else None
  }

  /** The tokens of a description, each looked up; None stands for an unknown type. */
  function Lex(tokens: seq<string>): seq<Option<Strategy>> { Map(Lookup, tokens) }

  /** The switch of the parser on one token. */
  method TokenKind(tokens: seq<string>, i: nat) returns (kind: Option<Strategy>)
    requires i < |tokens|
    ensures kind == Lex(tokens)[i]
  {
    if tokens[i] == PACKAGE_NAME {
      return Some(Package);
    } else if tokens[i] == BOX_NAME {
      return Some(Box);
    } else if tokens[i] == FILM_NAME {
      return Some(Film);
    }
    return None;
  }

  function KindsOf(input: string): seq<Option<Strategy>> { Lex(Split(input, '+')) }

  predicate IsMain(s: Strategy) { s != Film }

  function MainCount(kinds: seq<Option<Strategy>>): nat {
    multiset(kinds)[Some(Package)] + multiset(kinds)[Some(Box)]
  }

  /** Every token known and at most one main type among them. */
  predicate Acceptable(kinds: seq<Option<Strategy>>) {
    None !in kinds && MainCount(kinds) <= 1
  }

  function Parts(p: Packing): seq<Strategy> {
    match p
    case Single(s) => [s]
    case Composite(ss) => ss
  }

  /** The packing keeps the tokens' strategies, in order; a lone one is not wrapped. */
  predicate Represents(p: Packing, kinds: seq<Option<Strategy>>) {
    && |Parts(p)| == |kinds|
    && (forall i :: 0 <= i < |kinds| ==> kinds[i] == Some(Parts(p)[i]))
    && (p.Single? <==> |kinds| == 1)
  }

  lemma CountSnoc(kinds: seq<Option<Strategy>>, i: nat, k: Option<Strategy>)
    requires i < |kinds|
    ensures multiset(kinds[..i + 1])[k] == multiset(kinds[..i])[k] + (if kinds[i] == k then 1 else 0)
  {
    assert kinds[..i + 1] == kinds[..i] + [kinds[i]];
  }

  lemma MainCountSnoc(kinds: seq<Option<Strategy>>, i: nat)
    requires i < |kinds|
    ensures MainCount(kinds[..i + 1]) ==
            MainCount(kinds[..i]) + (if kinds[i].Some? && IsMain(kinds[i].value) then 1 else 0)
  {
    CountSnoc(kinds, i, Some(Package));
    CountSnoc(kinds, i, Some(Box));
  }

  /** The prefix up to i is fine and token i is the one that makes the parser give up with `error`. */
  predicate RejectedAt(kinds: seq<Option<Strategy>>, i: nat, error: PackagingError) {
    && i < |kinds| && Acceptable(kinds[..i])
    && match error
       case UnknownType => kinds[i].None?
       case CombinedMainTypes => kinds[i].Some? && MainCount(kinds[..i + 1]) == 2
  }

  lemma RejectedMeansUnacceptable(kinds: seq<Option<Strategy>>, i: nat, error: PackagingError)
    requires RejectedAt(kinds, i, error)
    ensures !Acceptable(kinds)
  {
    if error.UnknownType? {
      assert kinds[i] in kinds;
    } else {
      assert kinds == kinds[..i + 1] + kinds[i + 1..];
      assert multiset(kinds) == multiset(kinds[..i + 1]) + multiset(kinds[i + 1..]);
    }
  }

  /** Known strategies with at most one main type are an acceptable beginning. */
  lemma ReadSoFar(kinds: seq<Option<Strategy>>, i: nat, strategies: seq<Strategy>)
    requires i == |strategies| <= |kinds| && MainCount(kinds[..i]) <= 1
    requires forall j :: 0 <= j < i ==> kinds[j] == Some(strategies[j])
    ensures Acceptable(kinds[..i])
  {
  }

  /**
   ParsePackaging. Success exactly on descriptions whose tokens are all known with at most one
   main type; otherwise the error belongs to the first offending token.
   */
  method ParsePackaging(input: string) returns (result: ParseResult)
    ensures result.Parsed? <==> Acceptable(KindsOf(input))
    ensures result.Parsed? ==> Represents(result.packing, KindsOf(input))
    ensures result.Rejected? ==> exists i :: RejectedAt(KindsOf(input), i, result.error)
  {
    var types := Split(input, '+');
    ghost var kinds := Lex(types);
    var strategies: seq<Strategy> := [];
    var mainCount := 0;
    for i := 0 to |types|
      invariant mainCount == MainCount(kinds[..i]) <= 1
      invariant |strategies| == i
      invariant forall j :: 0 <= j < i ==> kinds[j] == Some(strategies[j])
    {
      MainCountSnoc(kinds, i);
      ReadSoFar(kinds, i, strategies);
      var kind := TokenKind(types, i);
      if kind.None? {
        RejectedMeansUnacceptable(kinds, i, UnknownType);
        result := Rejected(UnknownType);
        assert RejectedAt(KindsOf(input), i, result.error);
        return;
      }
      var strategy := kind.value;
      if IsMain(strategy) {
        mainCount := mainCount + 1;
      }
      if mainCount > 1 {
        RejectedMeansUnacceptable(kinds, i, CombinedMainTypes);
        result := Rejected(CombinedMainTypes);
        assert RejectedAt(KindsOf(input), i, result.error);
        return;
      }
      strategies := strategies + [strategy];
    }
    assert kinds[..|types|] == kinds;
    ReadSoFar(kinds, |types|, strategies);
    if |strategies| == 1 {
      return Parsed(Single(strategies[0]));
    }
    return Parsed(Composite(strategies));
  }

  function UnitPrice(s: Strategy): nat {
    match s case Package => 5 case Box => 20 case Film => 1
  }

  predicate UnitWeightOk(s: Strategy, weight: real) {
    match s case Package => weight < 10.0 case Box => weight < 30.0 case Film => true
  }

  /** Price as a function of how often each type occurs. */
  function PriceOf(kinds: seq<Option<Strategy>>): nat {
    5 * multiset(kinds)[Some(Package)] + 20 * multiset(kinds)[Some(Box)] + multiset(kinds)[Some(Film)]
  }

  lemma PriceSnoc(kinds: seq<Option<Strategy>>, i: nat)
    requires i < |kinds|
    ensures PriceOf(kinds[..i + 1]) ==
            PriceOf(kinds[..i]) + (if kinds[i].Some? then UnitPrice(kinds[i].value) else 0)
  {
    CountSnoc(kinds, i, Some(Package));
    CountSnoc(kinds, i, Some(Box));
    CountSnoc(kinds, i, Some(Film));
  }

  /** Weight limit as a function of which types occur. */
  predicate WeightOk(kinds: seq<Option<Strategy>>, weight: real) {
    (Some(Package) in kinds ==> weight < 10.0) && (Some(Box) in kinds ==> weight < 30.0)
  }

  /** CalculatePrice, single or composite: the sum loop equals the closed form. */
  method CalculatePrice(packing: Packing, ghost kinds: seq<Option<Strategy>>) returns (price: nat)
    requires Represents(packing, kinds)
    ensures price == PriceOf(kinds)
  {
    var parts := Parts(packing);
    price := 0;
    for i := 0 to |parts|
      invariant price == PriceOf(kinds[..i])
    {
      PriceSnoc(kinds, i);
      price := price + UnitPrice(parts[i]);
    }
    assert kinds[..|kinds|] == kinds;
  }

  /** CheckWeight, single or composite: the early-exit loop equals the closed form. */
  method CheckWeight(packing: Packing, weight: real, ghost kinds: seq<Option<Strategy>>) returns (ok: bool)
    requires Represents(packing, kinds)
    ensures ok == WeightOk(kinds, weight)
  {
    var parts := Parts(packing);
    for i := 0 to |parts|
      invariant WeightOk(kinds[..i], weight)
    {
      assert kinds[..i + 1] == kinds[..i] + [kinds[i]];
      if !UnitWeightOk(parts[i], weight) {
        assert kinds[i] in kinds;
        return false;
      }
    }
    assert kinds[..|kinds|] == kinds;
    return true;
  }

  /** Reordering the tokens changes neither the verdict, nor the price, nor the weight limit. */
  lemma PermutationInvariant(a: seq<string>, b: seq<string>, weight: real)
    requires multiset(a) == multiset(b)
    ensures Acceptable(Lex(a)) <==> Acceptable(Lex(b))
    ensures PriceOf(Lex(a)) == PriceOf(Lex(b))
    ensures WeightOk(Lex(a), weight) <==> WeightOk(Lex(b), weight)
  {
    MapPermutation(Lookup, a, b);
    forall k ensures k in Lex(a) <==> k in Lex(b) {
      assert k in Lex(a) <==> k in multiset(Lex(a));
      assert k in Lex(b) <==> k in multiset(Lex(b));
    }
  }

  lemma FilmIsAcceptable()
    ensures KindsOf(FILM_NAME) == [Some(Film)]
    ensures Acceptable(KindsOf(FILM_NAME))
  {
    SplitNone(FILM_NAME, '+');
    assert Lookup(FILM_NAME) == Some(Film);
  }

  /** One token alone: its price and its weight limit. */
  lemma LoneToken(name: string, s: Strategy, weight: real)
    requires '+' !in name && Lookup(name) == Some(s)
    ensures Acceptable(KindsOf(name))
    ensures PriceOf(KindsOf(name)) == match s case Package => 5 case Box => 20 case Film => 1
    ensures WeightOk(KindsOf(name), weight) <==>
      match s case Package => weight < 10.0 case Box => weight < 30.0 case Film => true
  {
    SplitNone(name, '+');
    assert KindsOf(name) == [Some(s)];
  }

  lemma Names()
    ensures Lookup("пакет") == Some(Package)
    ensures Lookup("коробка") == Some(Box)
    ensures Lookup("пленка") == Some(Film)
  {
  }

  /** The price list and the weight limits by name: a bag, a box and film. */
  lemma PriceList(name: string, weight: real)
    requires name == "пакет" || name == "коробка" || name == "пленка"
    ensures Acceptable(KindsOf(name))
    ensures PriceOf(KindsOf(name)) == if name == "пакет" then 5 else if name == "коробка" then 20 else 1
    ensures WeightOk(KindsOf(name), weight) <==>
      (name == "пакет" ==> weight < 10.0) && (name == "коробка" ==> weight < 30.0)
  {
    Names();
    LoneToken(name, Lookup(name).value, weight);
  }
}
