/** Cards: the competitors of a bracket, each a name with a vector of numeric
    attributes aligned to the attribute names ("skills") of the data file. */
module Cards {

  /** A card. Attribute values are integers: the match rule only ever looks at
      the sign of a difference of two values, so any finite set of values can be
      replaced by integers in the same order. */
  datatype Card = Card(name: string, skills: seq<string>, values: seq<int>)

  /** Why building a card failed: the card's name, how many values it got and
      how many attribute names it was expected to align with. */
  datatype CardError = Misaligned(name: string, got: nat, expected: nat)

  datatype Result<T> = Ok(value: T) | Err(error: CardError)

  /** A card whose values line up one-to-one with its attribute names. */
  predicate Aligned(c: Card) {
    |c.values| == |c.skills|
  }

  /** The constructor check of `Card`: values and attribute names of different
      lengths are rejected, reporting both lengths; otherwise the card keeps
      exactly what it was given. */
  function NewCard(name: string, skills: seq<string>, values: seq<int>): (r: Result<Card>)
    ensures r.Ok? <==> |values| == |skills|
    ensures r.Ok? ==> r.value == Card(name, skills, values) && Aligned(r.value)
    ensures r.Err? ==> r.error == Misaligned(name, |values|, |skills|)
  {
    if |values| != |skills| then Err(Misaligned(name, |values|, |skills|))
    else Ok(Card(name, skills, values))
  }

  /** No two positions of the list hold cards with the same name. */
  predicate DistinctNames(s: seq<Card>) {
    forall i, j :: 0 <= i < j < |s| ==> s[i].name != s[j].name
  }

  /** The names of the cards in a list. */
  function Names(s: seq<Card>): set<string> {
    set c | c in s :: c.name
  }

  /** With distinct names no card occurs twice. */
  lemma {:induction false} DistinctOccursOnce(s: seq<Card>, x: Card)
    requires DistinctNames(s)
    ensures multiset(s)[x] <= 1
  {
    if s != [] {
      var init, last := s[..|s| - 1], s[|s| - 1];
      assert s == init + [last];
      DistinctOccursOnce(init, x);
      forall i | 0 <= i < |init| ensures init[i] != last {
        assert s[i].name != s[|s| - 1].name;
      }
      assert last !in init;
    }
  }

  /** A card at two different positions is counted twice. */
  lemma CountsRepeat(t: seq<Card>, i: nat, j: nat)
    requires i < j < |t|
    ensures t[i] == t[j] ==> multiset(t)[t[i]] >= 2
  {
    assert t == t[..j] + [t[j]] + t[j + 1..];
    assert t[i] in t[..j];
  }

  /** Reordering a list keeps its names, and keeps them distinct. */
  lemma PermutationKeepsNames(s: seq<Card>, t: seq<Card>)
    requires multiset(s) == multiset(t)
    ensures Names(s) == Names(t)
    ensures DistinctNames(s) ==> DistinctNames(t)
  {
    forall c ensures c in s <==> c in t {
      assert c in s <==> c in multiset(s);
      assert c in t <==> c in multiset(t);
    }
    if DistinctNames(s) {
      forall i, j | 0 <= i < j < |t| ensures t[i].name != t[j].name {
        CountsRepeat(t, i, j);
        DistinctOccursOnce(s, t[i]);
        assert t[i] != t[j];
        assert t[i] in multiset(s) && t[j] in multiset(s);
        var p :| 0 <= p < |s| && s[p] == t[i];
        var q :| 0 <= q < |s| && s[q] == t[j];
        if p < q {
          assert s[p].name != s[q].name;
        } else {
          assert s[q].name != s[p].name;
        }
      }
    }
  }
}
