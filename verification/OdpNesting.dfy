/** Which lists and items the paragraphs of a box stand in (odp_text.rs): what
    the printer's tags say of it, paragraph against paragraph. */
module OdpNesting {
  import opened Engine
  import opened OdpText

  /** Lists and items by turns, outermost a list, by the places of their tags. */
  ghost predicate ByTurns(tags: seq<Tag>, open: seq<nat>) {
    forall p :: 0 <= p < |open| ==>
      open[p] < |tags| && if p % 2 == 0 then tags[open[p]].OpenList? else tags[open[p]].OpenItem?
  }

  ghost predicate Turns(open: seq<Context>) {
    forall p :: 0 <= p < |open| ==> (open[p].InList? <==> p % 2 == 0)
  }

  lemma ByTurnsMore(tags: seq<Tag>, t: Tag, open: seq<nat>)
    requires ByTurns(tags, open)
    ensures ByTurns(tags + [t], open)
  {
  }

  lemma TurnsMore(open: seq<Context>, t: Tag, w: Walk, tags: seq<Tag>)
    requires Checks(open, t).Some? && Turns(open) && |w.open| == |open| && ByTurns(tags, w.open)
    ensures Turns(Checks(open, t).value) && |WalkTag(w, t, |tags|).open| == |Checks(open, t).value|
    ensures ByTurns(tags + [t], WalkTag(w, t, |tags|).open)
  {
    assert |Filled(open)| == |open| && Turns(Filled(open));
  }

  ghost predicate AllByTurns(tags: seq<Tag>, at: seq<seq<nat>>) {
    forall k :: 0 <= k < |at| ==> ByTurns(tags, at[k])
  }

  lemma AllMore(tags: seq<Tag>, t: Tag, w: Walk)
    requires AllByTurns(tags, w.at) && ByTurns(tags, w.open)
    ensures AllByTurns(tags + [t], WalkTag(w, t, |tags|).at)
  {
    var more := WalkTag(w, t, |tags|).at;
    forall k | 0 <= k < |more|
      ensures ByTurns(tags + [t], more[k])
    {
      ByTurnsMore(tags, t, more[k]);
    }
  }

  /** What a well-formed text's paragraphs stand in are its list tags and item
      tags by turns; what is open is what the reader has open. */
  lemma {:induction false} StandsByTurns(tags: seq<Tag>)
    requires Checked(tags).Some?
    ensures Turns(Checked(tags).value) && |Walked(tags).open| == |Checked(tags).value|
    ensures ByTurns(tags, Walked(tags).open) && AllByTurns(tags, Walked(tags).at)
    decreases |tags|
  {
    if tags != [] {
      hide ByTurns, Turns, AllByTurns, Checks, WalkTag;
      var rest, t := tags[..|tags| - 1], tags[|tags| - 1];
      assert tags == rest + [t];
      StandsByTurns(rest);
      WalkMore(rest, t);
      TurnsMore(Checked(rest).value, t, Walked(rest), rest);
      AllMore(rest, t, Walked(rest));
    }
  }

  /** How much of what paragraph `j` stands in is still open at `k`. */
  function Common(styles: seq<ParaStyle>, j: nat, k: nat): (c: nat)
    requires j <= k < |styles|
    ensures c <= Height(styles[j]) && c <= Height(styles[k])
    decreases k
  {
    if j == k then Height(styles[j])
    else Least(Common(styles, j, k - 1), if Height(styles[k]) == 0 then 0 else Height(styles[k]) - 1)
  }

  /** That much the two have in common, place by place, and no more. */
  lemma {:induction false} InCommon(styles: seq<ParaStyle>, at: seq<seq<nat>>, j: nat, k: nat, p: nat)
    requires NestedAs(styles, at) && j < k < |at| && p < |at[j]| && p < |at[k]|
    ensures at[k][p] == at[j][p] <==> p < Common(styles, j, k)
    decreases k
  {
    var s := Shared(at, k);
    assert SharedAt(at, k);
    if p < s {
      assert at[k][..s][p] == at[k - 1][..s][p];
      if j < k - 1 {
        InCommon(styles, at, j, k - 1, p);
      }
    } else {
      assert FreshAt(at, j, k);
      assert at[j][p] < at[k][p];
    }
  }

  /** List paragraphs down to level `l`, all of `styles[j..k]`. */
  ghost predicate Down(styles: seq<ParaStyle>, j: nat, k: nat, l: nat)
    requires j <= k <= |styles|
  {
    forall m :: j <= m < k ==> styles[m].bullet != NoBullet && styles[m].level >= l
  }

  lemma {:induction false} CommonDown(styles: seq<ParaStyle>, j: nat, k: nat, l: nat)
    requires j < k < |styles|
    requires styles[j].bullet != NoBullet && styles[j].level >= l && styles[k].bullet != NoBullet && styles[k].level >= l
    ensures 2 * l < Common(styles, j, k) <==> Down(styles, j, k, l)
    ensures 2 * l + 1 < Common(styles, j, k) <==> Down(styles, j + 1, k + 1, l + 1)
    decreases k
  {
    if j < k - 1 {
      var m := styles[k - 1];
      if m.bullet != NoBullet && m.level >= l {
        CommonDown(styles, j, k - 1, l);
      }
    }
  }

  /** The place of the list a paragraph stands in at level `l`. */
  function ListAt(at: seq<nat>, l: nat): nat
    requires 2 * l < |at|
  {
    at[2 * l]
  }

  /** The place of its item in that list. */
  function ItemAt(at: seq<nat>, l: nat): nat
    requires 2 * l + 1 < |at|
  {
    at[2 * l + 1]
  }

  /** Two paragraphs stand in one list of a level exactly when none between them
      is plain or shallower than that level. At the outermost level: a block of
      list paragraphs is one list. */
  lemma SameList(styles: seq<ParaStyle>, at: seq<seq<nat>>, j: nat, k: nat, l: nat)
    requires NestedAs(styles, at) && j < k < |at|
    requires styles[j].bullet != NoBullet && styles[j].level >= l && styles[k].bullet != NoBullet && styles[k].level >= l
    ensures ListAt(at[j], l) == ListAt(at[k], l) <==>
            forall m :: j < m < k ==> styles[m].bullet != NoBullet && styles[m].level >= l
  {
    InCommon(styles, at, j, k, 2 * l);
    CommonDown(styles, j, k, l);
  }

  /** Two paragraphs stand in one item of a level's list exactly when the later
      one and all between them are deeper than that level: the deeper stands in
      the item of the last shallower one before it, and no item has two
      paragraphs of its own level. */
  lemma SameItem(styles: seq<ParaStyle>, at: seq<seq<nat>>, j: nat, k: nat, l: nat)
    requires NestedAs(styles, at) && j < k < |at|
    requires styles[j].bullet != NoBullet && styles[j].level >= l && styles[k].bullet != NoBullet && styles[k].level >= l
    ensures ItemAt(at[j], l) == ItemAt(at[k], l) <==>
            forall m :: j < m <= k ==> styles[m].bullet != NoBullet && styles[m].level > l
  {
    InCommon(styles, at, j, k, 2 * l + 1);
    CommonDown(styles, j, k, l);
  }
}
