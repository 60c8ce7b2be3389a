/** The file names under which uploaded content is recognised again at the destination
    (common.py upload_name). */
module Names {
  import opened Basics

  const TAG := "--mc-"

  /** `prefix` is the sanitized title, `installation` the first twelve characters of the installation id. */
  function UploadName(installation: string, key: string, prefix: string): string {
    prefix + TAG + installation + "-" + key
  }

  /** The content key a file name was made for by this installation, if any. */
  function Owner(installation: string, name: string): Option<string> {
    var key := AfterLast(name, '-');
    if |key| == |name| then None
    else if EndsWith(name[..|name| - |key| - 1], TAG + installation) then Some(key) else None
  }

  predicate EndsWith(s: string, tail: string) {
    |tail| <= |s| && s[|s| - |tail|..] == tail
  }

  /** A name belongs to a key exactly when it was built for that key: two keys never share a file name,
      whatever the titles. */
  lemma OwnerExactly(installation: string, name: string, key: string)
    requires '-' !in key
    ensures Owner(installation, name) == Some(key)
       <==> exists prefix :: name == UploadName(installation, key, prefix)
  {
    if Owner(installation, name) == Some(key) {
      var head := name[..|name| - |key| - 1];
      var prefix := head[..|head| - |TAG + installation|];
      assert head == prefix + (TAG + installation);
      assert name == head + "-" + key by {
        assert '-' in name by {
          if '-' !in name { AfterLastAbsent(name, '-'); }
        }
        assert name[|head|] == '-';
      }
      assert name == UploadName(installation, key, prefix);
    }
    forall prefix | name == UploadName(installation, key, prefix)
      ensures Owner(installation, name) == Some(key)
    {
      OwnerOfUploadName(installation, key, prefix);
    }
  }

  lemma OwnerOfUploadName(installation: string, key: string, prefix: string)
    requires '-' !in key
    ensures Owner(installation, UploadName(installation, key, prefix)) == Some(key)
  {
    var head := prefix + TAG + installation;
    var name := UploadName(installation, key, prefix);
    assert name == head + ['-'] + key;
    AfterLastOfAppend(head, '-', key);
    assert name[..|name| - |key| - 1] == head;
    assert head[|prefix|..] == TAG + installation;
  }

  lemma {:induction false} AfterLastAbsent(s: string, c: char)
    requires c !in s
    ensures AfterLast(s, c) == s
  {
    if s != [] {
      AfterLastAbsent(s[..|s| - 1], c);
    }
  }
}
