/** The dog-stage keyword search behind `text.str.extract('(doggo|floofer|pupper|puppo)')`:
    the leftmost position at which one of the four keywords starts, and at that
    position the first alternative of the pattern that matches. */
module Stages {
  import opened Nullable

  datatype Stage = Doggo | Floofer | Pupper | Puppo

  function Keyword(k: Stage): string {
    match k
    case Doggo => "doggo"
    case Floofer => "floofer"
    case Pupper => "pupper"
    case Puppo => "puppo"
  }

  /** `w` occurs in `text` starting at position `i`. */
  predicate OccursAt(text: string, i: int, w: string) {
    0 <= i && i + |w| <= |text| && text[i..i + |w|] == w
  }

  /** No stage keyword starts before position `p`. */
  ghost predicate NoStageBefore(text: string, p: int) {
    forall q, k :: 0 <= q < p ==> !OccursAt(text, q, Keyword(k))
  }

  /** At one position at most one keyword can start, so the order of the
      alternatives in the pattern never decides the outcome. */
  lemma KeywordsExclusive(text: string, p: int, k1: Stage, k2: Stage)
    requires OccursAt(text, p, Keyword(k1)) && OccursAt(text, p, Keyword(k2))
    ensures k1 == k2
  {
    var w1, w2 := Keyword(k1), Keyword(k2);
    assert text[p] == w1[0] == w2[0] by {
      assert text[p..p + |w1|][0] == text[p];
      assert text[p..p + |w2|][0] == text[p];
    }
    if w1[0] == 'p' && w2[0] == 'p' {
      assert text[p + 4] == w1[4] == w2[4] by {
        assert text[p..p + |w1|][4] == text[p + 4];
        assert text[p..p + |w2|][4] == text[p + 4];
      }
    }
  }

  /** The pattern's alternatives, tried in order at one position. */
  function MatchAt(text: string, i: int): (r: Option<Stage>)
    ensures r.Some? ==> OccursAt(text, i, Keyword(r.value))
    ensures r.Null? ==> forall k :: !OccursAt(text, i, Keyword(k))
  {
    if OccursAt(text, i, "doggo") then Some(Doggo)
    else if OccursAt(text, i, "floofer") then Some(Floofer)
    else if OccursAt(text, i, "pupper") then Some(Pupper)
    else if OccursAt(text, i, "puppo") then Some(Puppo)
    else Null
  }

  /** The regex scan: try every start position from `i` on, left to right. */
  function SearchFrom(text: string, i: nat): (r: Option<Stage>)
    ensures r.Some? ==> exists p :: i <= p && OccursAt(text, p, Keyword(r.value))
                                  && forall q, k :: i <= q < p ==> !OccursAt(text, q, Keyword(k))
    ensures r.Null? ==> forall q, k :: i <= q ==> !OccursAt(text, q, Keyword(k))
    decreases |text| - i
  {
    if i >= |text| then Null
    else
      match MatchAt(text, i)
      case Some(k) => Some(k)
      case Null => SearchFrom(text, i + 1)
  }

  /** The extracted stage: the keyword starting leftmost in `text`, or null
      when the text holds none of the four. */
  function ExtractStage(text: string): (r: Option<Stage>)
    ensures r.Some? ==> exists p :: OccursAt(text, p, Keyword(r.value)) && NoStageBefore(text, p)
    ensures r.Null? <==> forall q, k :: !OccursAt(text, q, Keyword(k))
  {
    SearchFrom(text, 0)
  }

  /** Conversely, whatever keyword starts leftmost is the one extracted. */
  lemma ExtractStageIsLeftmost(text: string, k: Stage, p: int)
    requires OccursAt(text, p, Keyword(k)) && NoStageBefore(text, p)
    ensures ExtractStage(text) == Some(k)
  {
    var r := ExtractStage(text);
    assert r.Some?;
    var p' :| OccursAt(text, p', Keyword(r.value)) && NoStageBefore(text, p');
    assert p' >= p;
    assert p >= p';
    KeywordsExclusive(text, p, k, r.value);
  }
}
