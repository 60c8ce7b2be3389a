/** workspace.py, desired: the content that the prepared articles need at the destination, by content key. */
module DesiredIndex {
  import opened Basics
  import opened Names
  import opened Prepare
  import Publish

  /** An artifact of a manifest: `content` is its digest with the lower-case extension. */
  datatype Artifact = Artifact(content: string, filename: string, bytes: int)

  /** A stored article: its key, entry and what re-verifying its manifest yields (None when that fails). */
  datatype Stored = Stored(key: string, entry: Entry, artifacts: Option<seq<Artifact>>)

  /** The article takes part: it has a manifest, and no error unless failed ones are wanted too. */
  predicate Usable(a: Stored, includeFailed: bool) {
    a.entry.manifest.Some? && (a.entry.error.None? || includeFailed)
  }

  /** The files of the usable articles, each with its article, in order. */
  function Files(articles: seq<Stored>, includeFailed: bool): seq<(string, Artifact)> {
    if articles == [] then []
    else
      var a := articles[|articles| - 1];
      Files(articles[..|articles| - 1], includeFailed)
      + (if Usable(a, includeFailed) && a.artifacts.Some? then Owned(a.key, a.artifacts.value) else [])
  }

  function Owned(key: string, files: seq<Artifact>): seq<(string, Artifact)> {
    seq(|files|, i requires 0 <= i < |files| => (key, files[i]))
  }

  /** The articles among `files` that contain this content, once per occurrence. */
  function Mentions(files: seq<(string, Artifact)>, content: string): seq<string> {
    if files == [] then []
    else
      var (key, f) := files[|files| - 1];
      Mentions(files[..|files| - 1], content) + (if f.content == content then [key] else [])
  }

  /** The `i`th file is the first one with this content. */
  predicate First(files: seq<(string, Artifact)>, content: string, i: nat) {
    i < |files| && files[i].1.content == content && forall j :: 0 <= j < i ==> files[j].1.content != content
  }

  /** The item has the name and size of the first file with this content. */
  ghost predicate Named(files: seq<(string, Artifact)>, content: string, item: Publish.Item) {
    exists i: nat :: First(files, content, i) && files[i].1.filename == item.filename && files[i].1.bytes == item.bytes
  }

  /** `index` is what the files say: one item per content, with the articles that contain it and the name and size
      of its first file. */
  ghost predicate Indexes(index: map<string, Publish.Item>, files: seq<(string, Artifact)>) {
    forall c :: (c in index <==> Mentions(files, c) != [])
      && (c in index ==> index[c].articles == Mentions(files, c) && Named(files, c, index[c]))
  }

  lemma {:induction false} Unmentioned(files: seq<(string, Artifact)>, content: string, j: nat)
    requires Mentions(files, content) == [] && j < |files|
    ensures files[j].1.content != content
    decreases |files|
  {
    if j < |files| - 1 { Unmentioned(files[..|files| - 1], content, j); }
  }

  /** A later file changes neither name nor size. */
  lemma NamedStays(files: seq<(string, Artifact)>, file: (string, Artifact), content: string, item: Publish.Item,
                   item': Publish.Item)
    requires Named(files, content, item) && item'.filename == item.filename && item'.bytes == item.bytes
    ensures Named(files + [file], content, item')
  {
    var i: nat :| First(files, content, i) && files[i].1.filename == item.filename && files[i].1.bytes == item.bytes;
    assert First(files + [file], content, i);
  }

  lemma IndexesAdd(index: map<string, Publish.Item>, files: seq<(string, Artifact)>, key: string, f: Artifact)
    requires Indexes(index, files)
    ensures var item := if f.content in index then index[f.content] else Publish.Item(f.filename, f.bytes, []);
            Indexes(index[f.content := item.(articles := item.articles + [key])], files + [(key, f)])
  {
    var all := files + [(key, f)];
    assert all[..|all| - 1] == files;
    var item := if f.content in index then index[f.content] else Publish.Item(f.filename, f.bytes, []);
    var index' := index[f.content := item.(articles := item.articles + [key])];
    forall c
      ensures (c in index' <==> Mentions(all, c) != [])
           && (c in index' ==> index'[c].articles == Mentions(all, c) && Named(all, c, index'[c]))
    {
      if c in index {
        NamedStays(files, (key, f), c, index[c], index'[c]);
      } else if c == f.content {
        forall j | 0 <= j < |files|
          ensures all[j].1.content != c
        {
          Unmentioned(files, c, j);
        }
        assert First(all, c, |files|);
      }
    }
  }

  /** Lines 234-237, for one article. */
  method AddFiles(before: map<string, Publish.Item>, key: string, files: seq<Artifact>,
                  ghost listed: seq<(string, Artifact)>)
    returns (index: map<string, Publish.Item>)
    requires Indexes(before, listed)
    ensures Indexes(index, listed + Owned(key, files))
  {
    index := before;
    assert listed + Owned(key, files[..0]) == listed;
    for j := 0 to |files|
      invariant Indexes(index, listed + Owned(key, files[..j]))
    {
      var f := files[j];
      IndexesAdd(index, listed + Owned(key, files[..j]), key, f);
      assert listed + Owned(key, files[..j + 1]) == listed + Owned(key, files[..j]) + [(key, f)];
      var item := if f.content in index then index[f.content] else Publish.Item(f.filename, f.bytes, []);
      index := index[f.content := item.(articles := item.articles + [key])];
    }
    assert files[..|files|] == files;
  }

  /** desired: None when re-verifying a manifest fails. */
  method Desired(articles: seq<Stored>, includeFailed: bool) returns (result: Option<map<string, Publish.Item>>)
    ensures result.None? <==>
              exists a :: a in articles && a.entry.manifest.Some? && (a.entry.error.None? || includeFailed)
                && a.artifacts.None?
    ensures result.Some? ==> Indexes(result.value, Files(articles, includeFailed))
  {
    var index: map<string, Publish.Item> := map[];
    for i := 0 to |articles|
      invariant Indexes(index, Files(articles[..i], includeFailed))
      invariant forall a :: a in articles[..i] && Usable(a, includeFailed) ==> a.artifacts.Some?
    {
      var a := articles[i];
      FilesAppend(articles[..i], a, includeFailed);
      assert articles[..i + 1] == articles[..i] + [a];
      if Usable(a, includeFailed) {
        if a.artifacts.None? { return None; }
        index := AddFiles(index, a.key, a.artifacts.value, Files(articles[..i], includeFailed));
      }
    }
    assert articles[..|articles|] == articles;
    return Some(index);
  }

  lemma FilesAppend(articles: seq<Stored>, a: Stored, includeFailed: bool)
    ensures Files(articles + [a], includeFailed)
         == (if Usable(a, includeFailed) && a.artifacts.Some?
             then Files(articles, includeFailed) + Owned(a.key, a.artifacts.value)
             else Files(articles, includeFailed))
  {
    assert (articles + [a])[..|articles + [a]| - 1] == articles;
  }

  /** The article has a manifest, no error unless failed ones are wanted, and an artifact with this content. */
  ghost predicate Provides(a: Stored, includeFailed: bool, content: string) {
    && a.entry.manifest.Some? && (a.entry.error.None? || includeFailed)
    && a.artifacts.Some? && exists j :: 0 <= j < |a.artifacts.value| && a.artifacts.value[j].content == content
  }

  ghost predicate ProvidedBy(articles: seq<Stored>, includeFailed: bool, content: string, key: string) {
    exists i :: 0 <= i < |articles| && articles[i].key == key && Provides(articles[i], includeFailed, content)
  }

  lemma {:induction false} MentionsAre(files: seq<(string, Artifact)>, content: string, key: string)
    ensures key in Mentions(files, content) <==>
              exists k :: 0 <= k < |files| && files[k].0 == key && files[k].1.content == content
    decreases |files|
  {
    if files != [] {
      var n := |files| - 1;
      MentionsAre(files[..n], content, key);
      if k :| 0 <= k < n && files[..n][k].0 == key && files[..n][k].1.content == content { assert files[k].0 == key; }
      if k :| 0 <= k < |files| && files[k].0 == key && files[k].1.content == content {
        if k < n { assert files[..n][k] == files[k]; }
      }
    }
  }

  lemma {:induction false} FilesProvide(articles: seq<Stored>, includeFailed: bool, content: string, key: string)
    ensures key in Mentions(Files(articles, includeFailed), content)
       <==> ProvidedBy(articles, includeFailed, content, key)
    decreases |articles|
  {
    if articles != [] {
      var n := |articles| - 1;
      var front, a := articles[..n], articles[n];
      assert articles == front + [a];
      FilesProvide(front, includeFailed, content, key);
      FilesAppend(front, a, includeFailed);
      var files := Files(front, includeFailed);
      MentionsAre(files, content, key);
      if Usable(a, includeFailed) && a.artifacts.Some? {
        var own := Owned(a.key, a.artifacts.value);
        MentionsAre(files + own, content, key);
        OwnedMentions(files, own, content, key);
        assert Provides(a, includeFailed, content) && a.key == key
          <==> exists k :: 0 <= k < |own| && own[k].0 == key && own[k].1.content == content by {
          if Provides(a, includeFailed, content) && a.key == key {
            var j :| 0 <= j < |a.artifacts.value| && a.artifacts.value[j].content == content;
            assert own[j] == (key, a.artifacts.value[j]);
          }
        }
      }
      if i :| 0 <= i < n && front[i].key == key && Provides(front[i], includeFailed, content) {
        assert articles[i] == front[i];
      }
      if i :| 0 <= i < |articles| && articles[i].key == key && Provides(articles[i], includeFailed, content) {
        if i < n { assert front[i] == articles[i]; }
      }
    }
  }

  lemma OwnedMentions(a: seq<(string, Artifact)>, b: seq<(string, Artifact)>, content: string, key: string)
    ensures (exists k :: 0 <= k < |a + b| && (a + b)[k].0 == key && (a + b)[k].1.content == content)
       <==> || (exists k :: 0 <= k < |a| && a[k].0 == key && a[k].1.content == content)
            || exists k :: 0 <= k < |b| && b[k].0 == key && b[k].1.content == content
  {
    var all := a + b;
    if k :| 0 <= k < |all| && all[k].0 == key && all[k].1.content == content {
      if k < |a| { assert a[k] == all[k]; } else { assert b[k - |a|] == all[k]; }
    }
    if k :| 0 <= k < |a| && a[k].0 == key && a[k].1.content == content { assert all[k] == a[k]; }
    if k :| 0 <= k < |b| && b[k].0 == key && b[k].1.content == content { assert all[|a| + k] == b[k]; }
  }

  /** A content is desired exactly when a stored article provides it, and then lists exactly the articles that do. */
  lemma DesiredExactly(articles: seq<Stored>, includeFailed: bool, index: map<string, Publish.Item>, content: string)
    requires Indexes(index, Files(articles, includeFailed))
    ensures content in index <==> exists i :: 0 <= i < |articles| && Provides(articles[i], includeFailed, content)
    ensures content in index ==>
              forall key :: key in index[content].articles <==>
                ProvidedBy(articles, includeFailed, content, key)
  {
    forall key
      ensures key in Mentions(Files(articles, includeFailed), content)
         <==> ProvidedBy(articles, includeFailed, content, key)
    {
      FilesProvide(articles, includeFailed, content, key);
    }
    var mentions := Mentions(Files(articles, includeFailed), content);
    if mentions != [] { assert mentions[0] in mentions; }
    if i :| 0 <= i < |articles| && Provides(articles[i], includeFailed, content) {
      assert articles[i].key in mentions;
    }
  }

  /** When every artifact carries the upload name of its content, so does every desired item: the importer is given
      well-named work. */
  lemma DesiredWellNamed(installation: string, files: seq<(string, Artifact)>, index: map<string, Publish.Item>,
                         content: string)
    requires Indexes(index, files) && content in index
    requires forall i :: 0 <= i < |files| ==>
               '-' !in files[i].1.content
               && exists title :: files[i].1.filename == UploadName(installation, files[i].1.content, title)
    ensures Owner(installation, index[content].filename) == Some(content)
  {
    var i: nat :| First(files, content, i) && files[i].1.filename == index[content].filename;
    OwnerExactly(installation, files[i].1.filename, content);
  }
}
