/** Tool families of a definition: `filesystem` stands for `filesystem.*`. */
module ToolFamilies {
  import opened Wrappers
  import opened ToolIds

  predicate EndsWithAll(id: string) {
    |id| >= 2 && id[|id| - 2..] == ".*"
  }

  function Base(id: string): string {
    if EndsWithAll(id) then id[..|id| - 2] else id
  }

  predicate IsValid(id: string) {
    Base(id) == "*" || IsToolId(Base(id))
  }

  function Normalized(id: string): string {
    if '.' in id || '_' in id || id == "*" then id else id + ".*"
  }

  predicate Distinct(s: seq<string>) {
    forall i, j | 0 <= i < j < |s| :: s[i] != s[j]
  }

  /** The families of the first occurrences, in order. */
  function Expanded(ids: seq<string>): seq<string> {
    if ids == [] then []
    else
      var rest, last := Expanded(ids[..|ids| - 1]), Normalized(ids[|ids| - 1]);
      if last in rest then rest else rest + [last]
  }

  function FirstInvalid(ids: seq<string>): Option<string> {
    if ids == [] then None
    else
      var earlier, last := FirstInvalid(ids[..|ids| - 1]), ids[|ids| - 1];
      if earlier.Some? then earlier else if IsValid(last) then None else Some(last)
  }

  lemma {:induction false} FirstInvalidStays(ids: seq<string>, i: nat)
    requires i <= |ids| && FirstInvalid(ids[..i]).Some?
    ensures FirstInvalid(ids) == FirstInvalid(ids[..i])
  {
    if i == |ids| {
      assert ids[..i] == ids;
    } else {
      assert ids[..|ids| - 1][..i] == ids[..i];
      FirstInvalidStays(ids[..|ids| - 1], i);
    }
  }

  lemma {:induction false} NoneInvalid(ids: seq<string>)
    ensures FirstInvalid(ids).None? <==> forall id | id in ids :: IsValid(id)
  {
    if ids != [] {
      var shorter, last := ids[..|ids| - 1], ids[|ids| - 1];
      assert ids == shorter + [last] && last in ids;
      NoneInvalid(shorter);
    }
  }

  /** What a definition may list: a tool id, everything, or either as a family. */
  ghost predicate MayList(id: string) {
    || id == "*" || IsToolId(id) || id == "*.*"
    || exists family :: IsToolId(family) && id == family + ".*"
  }

  lemma ValidMayBeListed(id: string)
    ensures IsValid(id) <==> MayList(id)
  {
    if EndsWithAll(id) {
      assert id == Base(id) + ".*";
      assert !Allowed(id[|id| - 1]);
    }
    if family :| IsToolId(family) && id == family + ".*" {
      assert id[|id| - 2..] == ".*" && Base(id) == family;
    }
  }

  ghost predicate AllListed(ids: seq<string>) {
    forall id | id in ids :: MayList(id)
  }

  /** The first entry that may not be listed. */
  ghost predicate FirstUnlisted(ids: seq<string>, id: string) {
    exists i | 0 <= i < |ids| :: ids[i] == id && !MayList(id) && AllListed(ids[..i])
  }

  /** Each entry once, one without a dot or an underscore standing for its whole family. */
  ghost predicate ExpandsTo(ids: seq<string>, expanded: seq<string>) {
    Distinct(expanded) && forall x :: x in expanded <==> exists id :: id in ids && StandsFor(id, x)
  }

  predicate StandsFor(id: string, x: string) {
    x == if '.' !in id && '_' !in id && id != "*" then id + ".*" else id
  }

  lemma UnlistedStays(ids: seq<string>, last: string, id: string)
    requires FirstUnlisted(ids, id)
    ensures FirstUnlisted(ids + [last], id)
  {
    var i :| 0 <= i < |ids| && ids[i] == id && !MayList(id) && AllListed(ids[..i]);
    assert (ids + [last])[..i] == ids[..i] && (ids + [last])[i] == id;
  }

  lemma LastUnlisted(ids: seq<string>, last: string)
    requires AllListed(ids)
    ensures if MayList(last) then AllListed(ids + [last]) else FirstUnlisted(ids + [last], last)
  {
    assert (ids + [last])[..|ids|] == ids && (ids + [last])[|ids|] == last;
  }

  lemma {:induction false} FirstInvalidIsFirst(ids: seq<string>)
    ensures if FirstInvalid(ids).None? then AllListed(ids) else FirstUnlisted(ids, FirstInvalid(ids).value)
  {
    if ids != [] {
      var shorter, last := ids[..|ids| - 1], ids[|ids| - 1];
      assert ids == shorter + [last];
      FirstInvalidIsFirst(shorter);
      if FirstInvalid(shorter).Some? {
        UnlistedStays(shorter, last, FirstInvalid(shorter).value);
      } else {
        ValidMayBeListed(last);
        LastUnlisted(shorter, last);
      }
    }
  }

  lemma ExpandedExpands(ids: seq<string>)
    ensures ExpandsTo(ids, Expanded(ids))
  {
    ExpandedMembers(ids);
    forall x ensures x in Expanded(ids) <==> exists id :: id in ids && StandsFor(id, x) {
      if x in Expanded(ids) {
        var i :| 0 <= i < |ids| && Normalized(ids[i]) == x;
        assert ids[i] in ids && StandsFor(ids[i], x);
      }
      if id :| id in ids && StandsFor(id, x) {
        var i :| 0 <= i < |ids| && ids[i] == id;
        assert Normalized(ids[i]) == x;
      }
    }
  }

  /** The expanded list, or an error with the first id that is not valid. */
  method ExpandToolFamilies(ids: seq<string>) returns (r: Result<seq<string>, string>)
    ensures r == if FirstInvalid(ids).Some? then Err(FirstInvalid(ids).value) else Ok(Expanded(ids))
    ensures r.Ok? <==> AllListed(ids)
    ensures if r.Ok? then ExpandsTo(ids, r.value) else FirstUnlisted(ids, r.error)
  {
    FirstInvalidIsFirst(ids);
    ExpandedExpands(ids);
    var expanded := [];
    for i := 0 to |ids|
      invariant FirstInvalid(ids[..i]).None?
      invariant expanded == Expanded(ids[..i])
    {
      var id := ids[i];
      assert ids[..i + 1][..i] == ids[..i];
      if !IsValid(id) {
        FirstInvalidStays(ids, i + 1);
        return Err(id);
      }
      var normalized := Normalized(id);
      if normalized !in expanded { expanded := expanded + [normalized]; }
    }
    assert ids[..|ids|] == ids;
    return Ok(expanded);
  }

  lemma NormalizedStays(id: string)
    requires IsValid(id)
    ensures Normalized(Normalized(id)) == Normalized(id) && IsValid(Normalized(id))
  {
    if !('.' in id || '_' in id || id == "*") {
      var longer := id + ".*";
      assert longer[|id|] == '.' && longer[|longer| - 2..] == ".*" && longer[..|longer| - 2] == id;
    }
  }

  /** Exactly the normalized ids, each once. */
  lemma {:induction false} ExpandedMembers(ids: seq<string>)
    ensures Distinct(Expanded(ids))
    ensures forall x :: x in Expanded(ids) <==> exists i :: 0 <= i < |ids| && Normalized(ids[i]) == x
  {
    if ids != [] {
      var shorter, last := ids[..|ids| - 1], ids[|ids| - 1];
      ExpandedMembers(shorter);
      forall x ensures x in Expanded(ids) <==> exists i :: 0 <= i < |ids| && Normalized(ids[i]) == x {
        if x in Expanded(shorter) {
          var i :| 0 <= i < |shorter| && Normalized(shorter[i]) == x;
          assert Normalized(ids[i]) == x;
        }
        if i :| 0 <= i < |ids| && Normalized(ids[i]) == x {
          if i < |ids| - 1 { assert Normalized(shorter[i]) == x; }
        }
      }
    }
  }

  lemma {:induction false} NothingToExpand(ids: seq<string>)
    requires Distinct(ids) && forall x | x in ids :: Normalized(x) == x
    ensures Expanded(ids) == ids
  {
    if ids != [] {
      var shorter, last := ids[..|ids| - 1], ids[|ids| - 1];
      assert ids == shorter + [last] && last in ids;
      NothingToExpand(shorter);
      forall k | 0 <= k < |shorter| ensures shorter[k] != last {
        assert ids[k] != ids[|ids| - 1];
      }
    }
  }

  /** Expanding an expanded list succeeds and changes nothing. */
  lemma ExpandTwice(ids: seq<string>)
    requires FirstInvalid(ids).None?
    ensures FirstInvalid(Expanded(ids)).None? && Expanded(Expanded(ids)) == Expanded(ids)
  {
    NoneInvalid(ids);
    NoneInvalid(Expanded(ids));
    ExpandedMembers(ids);
    forall x | x in Expanded(ids) ensures Normalized(x) == x && IsValid(x) {
      var i :| 0 <= i < |ids| && Normalized(ids[i]) == x;
      NormalizedStays(ids[i]);
    }
    NothingToExpand(Expanded(ids));
  }
}
