/** What a prune has read before each of its deletion requests, over every run. */
module PublishReads {
  import opened Basics
  import opened Publish
  import opened PublishClient
  import opened PublishWorld
  import opened PublishRetire

  lemma {:induction false} RunLast(s: Setting, w: World, labels: seq<Label>)
    requires labels != []
    ensures var n := |labels| - 1;
            Run(s, w, labels)
            == (if Run(s, w, labels[..n]).None? then None else Step(s, Run(s, w, labels[..n]).value, labels[n]))
    decreases |labels|
  {
    var n := |labels| - 1;
    var next := Step(s, w, labels[0]);
    if n > 0 && next.Some? {
      RunLast(s, next.value, labels[1..]);
      assert labels[1..][..n - 1] == labels[..n][1..];
    } else if n == 0 {
      assert labels[..0] == [] && labels[1..] == [];
    }
  }

  predicate NoBegin(labels: seq<Label>) {
    forall i :: 0 <= i < |labels| && labels[i].Do? ==> !labels[i].event.Begin?
  }

  /** At label `i` the service answers that the document recorded for `k` is completed, and no other command begins
      after it. */
  ghost predicate ReadAt(s: Setting, labels: seq<Label>, i: nat, k: string) {
    && i < |labels| && labels[i].Do? && labels[i].event.Got? && labels[i].event.reply.Found?
    && NoBegin(labels[i + 1..])
    && Run(s, CREATION, labels[..i]).Some?
    && var c, d := Run(s, CREATION, labels[..i]).value.client, labels[i].event.reply.doc;
       && c.pc.Verifying? && c.pc.left != [] && c.pc.left[0] == k && k in c.mem
       && d.id == c.mem[k].id && d.name == c.mem[k].filename && d.status == Some("completed")
  }

  lemma ReadEarlier(s: Setting, labels: seq<Label>, i: nat, k: string)
    requires labels != [] && ReadAt(s, labels[..|labels| - 1], i, k) && NoBegin([labels[|labels| - 1]])
    ensures ReadAt(s, labels, i, k)
  {
    var n := |labels| - 1;
    var front, l := labels[..n], labels[n];
    assert front[..i] == labels[..i];
    assert labels[i + 1..] == front[i + 1..] + [l];
    assert [l][0] == l;
  }

  /** In every run from the start: a key that counts as re-read was read as completed since the last command began. */
  lemma {:induction false} RereadInRun(s: Setting, labels: seq<Label>, k: string)
    requires Run(s, CREATION, labels).Some? && k in Run(s, CREATION, labels).value.client.reread
    ensures exists i: nat :: ReadAt(s, labels, i, k)
    decreases |labels|
  {
    var n := |labels| - 1;
    RunLast(s, CREATION, labels);
    var w, l := Run(s, CREATION, labels[..n]).value, labels[n];
    RereadMeansRead(s, w, l, k);
    if k in w.client.reread && !(l.Do? && l.event.Begin?) {
      RereadInRun(s, labels[..n], k);
      var i: nat :| ReadAt(s, labels[..n], i, k);
      ReadEarlier(s, labels, i, k);
    } else {
      assert labels[n + 1..] == [];
      assert ReadAt(s, labels, n, k);
    }
  }

  /** Before every deletion request of every run, each desired key's own document was read as completed since the prune
      that sends it began. */
  lemma ReadBeforeDelete(s: Setting, labels: seq<Label>, t: string, d: string)
    requires Run(s, CREATION, labels).Some? && Step(s, Run(s, CREATION, labels).value, Do(Delete, t)).Some?
    requires Run(s, CREATION, labels).value.client.task.Prune?
    requires d in Run(s, CREATION, labels).value.client.task.desired
    ensures exists i: nat :: ReadAt(s, labels, i, d)
  {
    var w := Run(s, CREATION, labels).value;
    assert Reachable(s, w);
    DeletesGuarded(s, w, t);
    assert Checked(w.client, d);
    RereadInRun(s, labels, d);
  }
}
