/**
 * The manage-templates page: a list of templates whose ids the page assigns itself, one more than
 * the id of the last template. Appending and filtering keep the ids strictly increasing, hence unique.
 */
module Templates {
  import opened Seqs
  import opened Optional

  datatype Template = Template(id: int, name: string)

  /** The list the page starts with. */
  const InitialTemplates: seq<Template> :=
    [Template(1, "Academic Degree"), Template(2, "Course Completion"), Template(3, "Employee ID")]

  /** Ids strictly increase along the list. */
  predicate IdsIncreasing(ts: seq<Template>) {
    forall i, j :: 0 <= i < j < |ts| ==> ts[i].id < ts[j].id
  }

  /** No two templates share an id. */
  predicate UniqueIds(ts: seq<Template>) {
    forall i, j :: 0 <= i < |ts| && 0 <= j < |ts| && i != j ==> ts[i].id != ts[j].id
  }

  lemma InitialTemplatesWellFormed()
    ensures IdsIncreasing(InitialTemplates)
    ensures forall i :: 0 <= i < |InitialTemplates| ==> InitialTemplates[i].id == i + 1
  {
  }

  /** Increasing ids are unique ids. */
  lemma IncreasingIdsAreUnique(ts: seq<Template>)
    requires IdsIncreasing(ts)
    ensures UniqueIds(ts)
  {
    forall i, j | 0 <= i < |ts| && 0 <= j < |ts| && i != j ensures ts[i].id != ts[j].id {
      if i < j { assert ts[i].id < ts[j].id; } else { assert ts[j].id < ts[i].id; }
    }
  }

  /** The id `handleAddNew` gives: one more than the last id, or 1 for an empty list. */
  function NextId(ts: seq<Template>): (r: int)
    ensures ts == [] ==> r == 1
    ensures IdsIncreasing(ts) ==> forall i :: 0 <= i < |ts| ==> ts[i].id < r
  {
    if |ts| > 0 then ts[|ts| - 1].id + 1 else 1
  }

  /** Appending under the next id keeps the ids increasing. */
  lemma AddKeepsIdsIncreasing(ts: seq<Template>, name: string)
    requires IdsIncreasing(ts)
    ensures IdsIncreasing(ts + [Template(NextId(ts), name)])
  {
  }

  /** `t.id !== id`, the condition `handleDelete` keeps. */
  function OtherId(id: int): Template -> bool {
    (t: Template) => t.id != id
  }

  /** Filtering keeps the ids increasing: the kept templates are in their old order. */
  lemma FilterKeepsIdsIncreasing(ts: seq<Template>, keep: Template -> bool)
    requires IdsIncreasing(ts)
    ensures IdsIncreasing(Filter(ts, keep))
  {
    FilterByIndices(ts, keep);
    var r, idx := Filter(ts, keep), KeptIndices(ts, keep);
    forall i, j | 0 <= i < j < |r| ensures r[i].id < r[j].id {
      assert idx[i] < idx[j];
    }
  }

  /** Deleting an id no template has changes nothing. */
  lemma DeleteUnknownId(ts: seq<Template>, id: int)
    requires forall t :: t in ts ==> t.id != id
    ensures Filter(ts, OtherId(id)) == ts
  {
    FilterAll(ts, OtherId(id));
  }

  /** With unique ids, deleting an id that is present removes exactly one template. */
  lemma {:induction false} DeleteRemovesOne(ts: seq<Template>, id: int)
    requires IdsIncreasing(ts)
    requires exists t :: t in ts && t.id == id
    ensures |Filter(ts, OtherId(id))| == |ts| - 1
  {
    var n := |ts| - 1;
    var p := ts[..n];
    if ts[n].id == id {
      assert forall t :: t in p ==> t.id != id by {
        forall t | t in p ensures t.id != id {
          var i :| 0 <= i < n && p[i] == t;
          assert ts[i].id < ts[n].id;
        }
      }
      DeleteUnknownId(p, id);
    } else {
      var t :| t in ts && t.id == id;
      var i :| 0 <= i < |ts| && ts[i] == t;
      assert i < n && p[i] == t;
      DeleteRemovesOne(p, id);
    }
  }

  class ManageTemplates {
    var templates: seq<Template>

    /** The page's invariant: ids strictly increase along the list, so no two are equal. */
    ghost predicate Valid()
      reads this
    {
      IdsIncreasing(templates)
    }

    constructor ()
      ensures Valid() && templates == InitialTemplates
    {
      templates := InitialTemplates;
    }

    /**
     * `handleDelete(id)`; `confirmed` is the answer to the confirmation dialog. Once confirmed, the
     * template with that id goes and the others keep their order; an unknown id changes nothing.
     */
    method HandleDelete(id: int, confirmed: bool)
      requires Valid()
      modifies this
      ensures Valid()
      ensures !confirmed ==> templates == old(templates)
      ensures confirmed ==> templates == Filter(old(templates), OtherId(id))
      ensures confirmed ==> forall t :: t in templates <==> t in old(templates) && t.id != id
      ensures (forall t :: t in old(templates) ==> t.id != id) ==> templates == old(templates)
    {
      if confirmed {
        var next := Filter(templates, OtherId(id));
        FilterKeepsIdsIncreasing(templates, OtherId(id));
        forall t ensures t in next <==> t in templates && t.id != id {
          FilterMembership(templates, OtherId(id), t);
        }
        if forall t :: t in templates ==> t.id != id {
          DeleteUnknownId(templates, id);
        }
        templates := next;
      }
    }

    /**
     * `handleAddNew`; `answer` is what the prompt returns (`None` when cancelled). An empty or
     * cancelled answer changes nothing; otherwise a template with the next id is appended.
     */
    method HandleAddNew(answer: Option<string>)
      requires Valid()
      modifies this
      ensures Valid()
      ensures answer == None || answer == Some("") ==> templates == old(templates)
      ensures answer.Some? && answer.value != "" ==>
        templates == old(templates) + [Template(NextId(old(templates)), answer.value)]
    {
      if answer.Some? && answer.value != "" {
        var newTemplate := Template(NextId(templates), answer.value);
        AddKeepsIdsIncreasing(templates, answer.value);
        templates := templates + [newTemplate];
      }
    }
  }
}
