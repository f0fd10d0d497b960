/** The tree of jobs below a root job, as the recursive query over parent_job_id sees it. */
module JobTree {
  import opened Base
  import opened JobTables

  /** A chain of rows, each the parent of the next. */
  ghost predicate IsChain(rows: map<JobId, Row>, chain: seq<JobId>) {
    chain != [] && (forall i :: 0 <= i < |chain| ==> chain[i] in rows) &&
    forall i :: 0 <= i < |chain| - 1 ==> rows[chain[i + 1]].parent == Some(chain[i])
  }

  ghost predicate Descends(rows: map<JobId, Row>, root: JobId, chain: seq<JobId>, id: JobId) {
    IsChain(rows, chain) && chain[0] == root && chain[|chain| - 1] == id
  }

  ghost predicate InTree(rows: map<JobId, Row>, root: JobId, id: JobId) {
    exists chain :: Descends(rows, root, chain, id)
  }

  /** GetJobTree: the ids of the root row and of all rows below it. */
  ghost function Tree(rows: map<JobId, Row>, root: JobId): set<JobId> {
    set id | id in rows && InTree(rows, root, id)
  }

  /** jobTreeComplete: no row of the tree is queued or running. */
  ghost predicate TreeComplete(rows: map<JobId, Row>, root: JobId) {
    forall id :: id in Tree(rows, root) ==> rows[id].status.Terminal()
  }

  lemma RootInTree(rows: map<JobId, Row>, root: JobId)
    ensures root in rows <==> root in Tree(rows, root)
    ensures root !in rows ==> Tree(rows, root) == {}
  {
    if root in rows {
      assert Descends(rows, root, [root], root);
    }
  }

  /** A row below a tree row is in the tree. */
  lemma ChildInTree(rows: map<JobId, Row>, root: JobId, id: JobId)
    requires id in rows && rows[id].parent.Some? && rows[id].parent.value in Tree(rows, root)
    ensures id in Tree(rows, root)
  {
    var chain :| Descends(rows, root, chain, rows[id].parent.value);
    assert Descends(rows, root, chain + [id], id);
  }

  // ---------------------------------------------------------------- rows may go, but not from the tree

  /** Tree rows stay with their parents; no row is new. */
  ghost predicate SparesTree(rows: map<JobId, Row>, rows': map<JobId, Row>, root: JobId) {
    Tree(rows, root) <= rows'.Keys <= rows.Keys && forall id :: id in rows' ==> rows'[id].parent == rows[id].parent
  }

  lemma {:induction false} ChainInTree(rows: map<JobId, Row>, root: JobId, chain: seq<JobId>, i: nat)
    requires IsChain(rows, chain) && chain[0] == root && i < |chain|
    ensures chain[i] in Tree(rows, root)
  {
    assert Descends(rows, root, chain[..i + 1], chain[i]);
  }

  lemma TreeStays(rows: map<JobId, Row>, rows': map<JobId, Row>, root: JobId)
    requires SparesTree(rows, rows', root)
    ensures Tree(rows', root) == Tree(rows, root)
  {
    forall id | id in Tree(rows', root)
      ensures id in Tree(rows, root)
    {
      var chain :| Descends(rows', root, chain, id);
      assert Descends(rows, root, chain, id);
    }
    forall id | id in Tree(rows, root)
      ensures id in Tree(rows', root)
    {
      var chain :| Descends(rows, root, chain, id);
      forall i | 0 <= i < |chain|
        ensures chain[i] in rows'
      {
        ChainInTree(rows, root, chain, i);
      }
      assert Descends(rows', root, chain, id);
    }
  }

  // ---------------------------------------------------------------- a row is inserted

  /** The id is new and nobody's parent. */
  ghost predicate Childless(rows: map<JobId, Row>, id: JobId, row: Row) {
    id !in rows && row.parent != Some(id) && forall j :: j in rows ==> rows[j].parent != Some(id)
  }

  /** An insert adds at most the new row to a tree. */
  lemma TreeAfterInsert(rows: map<JobId, Row>, root: JobId, id: JobId, row: Row)
    requires Childless(rows, id, row)
    ensures Tree(rows, root) <= Tree(rows[id := row], root) <= Tree(rows, root) + {id}
    ensures id in Tree(rows[id := row], root) <==>
            id == root || (row.parent.Some? && row.parent.value in Tree(rows, root))
  {
    var rows' := rows[id := row];
    forall j | j in Tree(rows, root)
      ensures j in Tree(rows', root)
    {
      var chain :| Descends(rows, root, chain, j);
      assert Descends(rows', root, chain, j);
    }
    forall j | j in Tree(rows', root) && j != id
      ensures j in Tree(rows, root)
    {
      var chain :| Descends(rows', root, chain, j);
      forall i | 0 <= i < |chain|
        ensures chain[i] in rows
      {
        assert i < |chain| - 1 ==> rows'[chain[i + 1]].parent == Some(chain[i]);
      }
      assert Descends(rows, root, chain, j);
    }
    if id == root {
      RootInTree(rows', root);
    } else if row.parent.Some? && row.parent.value in Tree(rows, root) {
      ChildInTree(rows', root, id);
    } else if id in Tree(rows', root) {
      var chain :| Descends(rows', root, chain, id);
      var n := |chain| - 1;
      assert n > 0 && rows'[chain[n]].parent == Some(chain[n - 1]);
      ChainInTree(rows', root, chain, n - 1);
    }
  }
}
