/**
 * Paths and object keys: every file's path is its object's key, and the directories
 * that are prefixes of the object store list what can be looked up in them.
 */
module ObjectDirs {
  import opened Wrappers
  import opened Text
  import opened FileName
  import opened Path
  import S = Schema
  import opened Tree
  import opened Listings
  import opened Namespace

  lemma JoinCons(head: string, rest: seq<string>)
    requires rest != []
    ensures Join([head] + rest, '/') == Slash(head, Join(rest, '/'))
  {
    assert ([head] + rest)[1..] == rest;
  }

  // ---------------------------------------------------------------------
  // A file's path is its key

  lemma ArrangementPathText(org: string, arr: string, tail: seq<string>)
    requires tail != []
    ensures Join(["orgs", org, "arrangements", arr] + tail, '/')
         == Slash("orgs", Slash(org, Slash("arrangements", Slash(arr, Join(tail, '/')))))
  {
    JoinCons(arr, tail);
    JoinCons("arrangements", [arr] + tail);
    JoinCons(org, ["arrangements", arr] + tail);
    JoinCons("orgs", [org, "arrangements", arr] + tail);
    assert ["orgs", org, "arrangements", arr] + tail == ["orgs"] + ([org, "arrangements", arr] + tail);
    assert [org, "arrangements", arr] + tail == [org] + (["arrangements", arr] + tail);
    assert ["arrangements", arr] + tail == ["arrangements"] + ([arr] + tail);
  }

  /** A stored file lies in the object store where it lies in the tree. */
  lemma FilePathIsKey(org: string, arr: string, voice: string, name: string, ext: string)
    ensures Print(VoiceFile(org, arr, voice, name + "." + ext)) == "/" + DerivedKey(org, arr, Some(voice), name, ext)
    ensures Print(ScoreFile(org, arr, name + "." + ext)) == "/" + DerivedKey(org, arr, None, name, ext)
  {
    var file := name + "." + ext;
    JoinCons(voice, [file]);
    JoinCons("voices", [voice, file]);
    JoinCons("score", [file]);
    assert ["voices", voice, file] == ["voices"] + [voice, file] && [voice, file] == [voice] + [file];
    assert ["score", file] == ["score"] + [file];
    ArrangementPathText(org, arr, ["voices", voice, file]);
    ArrangementPathText(org, arr, ["score", file]);
    assert Segments(VoiceFile(org, arr, voice, file)) == ["orgs", org, "arrangements", arr] + ["voices", voice, file];
    assert Segments(ScoreFile(org, arr, file)) == ["orgs", org, "arrangements", arr] + ["score", file];
  }

  lemma AnnotationPathIsKey(org: string, arr: string, voice: string, user: string, file: string)
    ensures Print(AnnotationFile(org, arr, voice, user, file)) == "/" + AnnotationKey(org, arr, voice, user, file)
  {
    var tail := ["voices", voice, "annotations", user, file];
    JoinCons(user, [file]);
    JoinCons("annotations", [user, file]);
    JoinCons(voice, ["annotations", user, file]);
    JoinCons("voices", [voice, "annotations", user, file]);
    assert [user, file] == [user] + [file] && ["annotations", user, file] == ["annotations"] + [user, file];
    assert [voice, "annotations", user, file] == [voice] + ["annotations", user, file];
    assert tail == ["voices"] + [voice, "annotations", user, file];
    ArrangementPathText(org, arr, tail);
    assert Segments(AnnotationFile(org, arr, voice, user, file)) == ["orgs", org, "arrangements", arr] + tail;
  }

  lemma LibraryPathText(user: string, rel: seq<string>)
    requires rel != []
    ensures Join(["users", user, "library"] + rel, '/') == LibraryKey(user, rel)
  {
    JoinCons("library", rel);
    JoinCons(user, ["library"] + rel);
    JoinCons("users", [user, "library"] + rel);
    assert [user, "library"] + rel == [user] + (["library"] + rel);
    assert ["users", user, "library"] + rel == ["users"] + ([user, "library"] + rel);
  }

  lemma LibraryPathIsKey(user: string, rel: seq<string>)
    requires rel != []
    ensures Print(LibraryEntry(user, rel)) == "/" + LibraryKey(user, rel)
  {
    LibraryPathText(user, rel);
  }

  // ---------------------------------------------------------------------
  // What lies directly under a prefix

  predicate IsName(name: string) {
    name != "" && '/' !in name
  }

  lemma BasenameIs(q: string, name: string)
    requires IsName(name)
    ensures Basename(q + "/" + name) == name && Basename(q + "/" + name + "/") == name
  {
    var key := q + "/" + name;
    assert key[|key| - 1] == name[|name| - 1] && name[|name| - 1] in name;
    assert TrimSlashes(key) == key;
    assert (key + "/")[..|key|] == key;
    SplitLastIs(q, '/', name);
  }

  /** No key has an empty segment here: keys are made of path segments. */
  predicate NoEmptyNames(w: World, prefix: string) {
    forall k <- w.objects :: !(prefix + "/" <= k)
  }

  lemma PrefixOfKey(w: World, prefix: string, k: string) returns (name: string)
    requires k in w.objects && NoEmptyNames(w, prefix) && prefix <= k && '/' in k[|prefix|..]
    ensures IsName(name) && SplitFirst(k[|prefix|..], '/').value.0 == name && prefix + name + "/" <= k
  {
    var rest := k[|prefix|..];
    var parts := SplitFirst(rest, '/').value;
    name := parts.0;
    assert k == prefix + rest && rest == name + "/" + parts.1;
    assert k == (prefix + name + "/") + parts.1;
    assert name == "" ==> prefix + name + "/" == prefix + "/";
  }

  lemma KeyUnderPrefix(prefix: string, name: string, k: string)
    requires IsName(name) && prefix + name + "/" <= k
    ensures prefix <= k && '/' in k[|prefix|..] && SplitFirst(k[|prefix|..], '/').value.0 == name
  {
    var more := k[|prefix + name + "/"|..];
    assert k == prefix + name + "/" + more;
    assert k[|prefix|..] == name + "/" + more;
    SplitFirstIs(name, '/', more);
  }

  /** The directories under a prefix are the names that some key continues. */
  lemma DirsUnder(w: World, q: string, name: string)
    requires NoEmptyNames(w, q + "/") && IsName(name)
    ensures (exists d <- CommonPrefixes(w, q + "/") :: Basename(d) == name)
       <==> exists k <- w.objects :: q + "/" + name + "/" <= k
  {
    var prefix := q + "/";
    if d :| d in CommonPrefixes(w, prefix) && Basename(d) == name {
      var k :| k in w.objects && prefix <= k && '/' in k[|prefix|..]
               && d == prefix + SplitFirst(k[|prefix|..], '/').value.0 + "/";
      var seg := PrefixOfKey(w, prefix, k);
      BasenameIs(q, seg);
      assert seg == name;
    }
    if k :| k in w.objects && prefix + name + "/" <= k {
      KeyUnderPrefix(prefix, name, k);
      BasenameIs(q, name);
      assert prefix + name + "/" in CommonPrefixes(w, prefix);
    }
  }

  /** The objects under a prefix are the keys one name longer. */
  lemma ObjectsUnder(w: World, q: string, name: string)
    requires IsName(name)
    ensures forall k <- ChildObjects(w, q + "/") :: Basename(k) == name ==> k == q + "/" + name
    ensures q + "/" + name in w.objects <==> q + "/" + name in ChildObjects(w, q + "/")
    ensures Basename(q + "/" + name) == name
  {
    var prefix := q + "/";
    BasenameIs(q, name);
    forall k <- ChildObjects(w, prefix) | Basename(k) == name
      ensures k == prefix + name
    {
      var rest := k[|prefix|..];
      assert k == prefix + rest && rest != "";
      BasenameIs(q, rest);
    }
    assert (prefix + name)[|prefix|..] == name;
  }

  /** A library directory lists a name as a directory exactly when some key goes on
      below it, and as a file exactly when it is an object, with its size. */
  lemma LibraryLists(w: World, q: string, name: string, size: nat)
    requires NoEmptyNames(w, q + "/") && IsName(name)
    ensures DirEntry(name) in LibraryEntries(w, q + "/") <==> exists k <- w.objects :: q + "/" + name + "/" <= k
    ensures Entry(name, Leaf(size)) in LibraryEntries(w, q + "/")
       <==> q + "/" + name in w.objects && w.objects[q + "/" + name] == size
  {
    DirsUnder(w, q, name);
    ObjectsUnder(w, q, name);
    if q + "/" + name in w.objects {
      assert ObjectEntry(w, q + "/" + name) in LibraryEntries(w, q + "/");
    }
  }

  // ---------------------------------------------------------------------
  // The directories agree with the lookups

  /** The prefix a library directory lists, without its last slash. */
  function LibraryDir(user: string, rel: seq<string>): string {
    if rel == [] then "users/" + user + "/library" else LibraryKey(user, rel)
  }

  lemma {:induction false} JoinSnoc(rel: seq<string>, name: string)
    requires rel != []
    ensures Join(rel + [name], '/') == Join(rel, '/') + "/" + name
  {
    if |rel| == 1 {
      assert rel + [name] == [rel[0]] + [name];
      JoinCons(rel[0], [name]);
    } else {
      assert rel == [rel[0]] + rel[1..] && rel + [name] == [rel[0]] + (rel[1..] + [name]);
      JoinCons(rel[0], rel[1..]);
      JoinCons(rel[0], rel[1..] + [name]);
      JoinSnoc(rel[1..], name);
    }
  }

  lemma LibraryChildKey(user: string, rel: seq<string>, name: string)
    ensures LibraryKey(user, rel + [name]) == LibraryDir(user, rel) + "/" + name
  {
    if rel == [] {
      assert Join([name], '/') == name && rel + [name] == [name];
    } else {
      JoinSnoc(rel, name);
    }
  }

  lemma LibraryRootText(user: string)
    ensures LibraryRootPrefix(user) == LibraryDir(user, []) + "/"
  {
  }

  /** The private directory of a user: the root of the library, or an entry of it. */
  function LibraryNode(user: string, rel: seq<string>): ResolvedPath {
    if rel == [] then LibraryRoot(user) else LibraryEntry(user, rel)
  }

  lemma LibraryNodeLists(w: World, u: User, user: string, rel: seq<string>, e: Entry)
    requires S.Lookups(w.db)
    ensures Listed(w, u, LibraryNode(user, rel), e)
       <==> user == u.slug && e in LibraryEntries(w, LibraryDir(user, rel) + "/")
  {
    if rel == [] {
      LibraryRootText(user);
      LibraryRootLists(w, u, user, e);
    } else {
      LibraryEntryLists(w, u, user, rel, e);
    }
  }

  lemma LibraryRootLists(w: World, u: User, user: string, e: Entry)
    requires S.Lookups(w.db)
    ensures Listed(w, u, LibraryRoot(user), e) <==> user == u.slug && e in LibraryEntries(w, LibraryRootPrefix(user))
  {
  }

  lemma LibraryEntryLists(w: World, u: User, user: string, rel: seq<string>, e: Entry)
    requires S.Lookups(w.db)
    ensures Listed(w, u, LibraryEntry(user, rel), e)
       <==> user == u.slug && e in LibraryEntries(w, LibraryKey(user, rel) + "/")
  {
  }

  /** Anywhere in a private library, a name is listed exactly when it can be looked up;
      to anyone but its owner nothing is listed and nothing can be. */
  lemma LibraryAgrees(w: World, u: User, user: string, rel: seq<string>, name: string)
    requires S.Lookups(w.db) && IsName(name) && NoEmptyNames(w, LibraryDir(user, rel) + "/")
    ensures (exists m :: Listed(w, u, LibraryNode(user, rel), Entry(name, m)))
       <==> Stat(w, u, LibraryEntry(user, rel + [name])).Ok?
    ensures user != u.slug ==> Stat(w, u, LibraryEntry(user, rel + [name])) == Err(NotFound)
  {
    var q := LibraryDir(user, rel);
    LibraryChildKey(user, rel, name);
    LibraryStats(w, u, user, rel + [name]);
    LibraryNodeLists(w, u, user, rel, DirEntry(name));
    LibraryLists(w, q, name, 0);
    if q + "/" + name in w.objects {
      LibraryLists(w, q, name, w.objects[q + "/" + name]);
      LibraryNodeLists(w, u, user, rel, Entry(name, Leaf(w.objects[q + "/" + name])));
    }
    if m :| Listed(w, u, LibraryNode(user, rel), Entry(name, m)) {
      LibraryNodeLists(w, u, user, rel, Entry(name, m));
      if m.Leaf? {
        LibraryLists(w, q, name, m.size);
      }
    }
  }

  lemma LibraryStats(w: World, u: User, user: string, rel: seq<string>)
    requires S.Lookups(w.db)
    ensures Stat(w, u, LibraryEntry(user, rel)).Ok?
       <==> && user == u.slug
            && (LibraryKey(user, rel) in w.objects || exists k <- w.objects :: LibraryKey(user, rel) + "/" <= k)
    ensures user != u.slug ==> Stat(w, u, LibraryEntry(user, rel)) == Err(NotFound)
  {
  }

  lemma AnnotationTexts(org: string, arr: string, voice: string, user: string, file: string)
    ensures AnnotationKey(org, arr, voice, user, file)
         == AnnotationsPrefix(org, arr, voice) + user + "/" + file
  {
  }

  /** An author's annotations of a voice are listed exactly as they can be looked up. */
  lemma AnnotationsAgree(w: World, u: User, org: string, arr: string, voice: string, user: string, file: string,
                         size: nat)
    requires S.Lookups(w.db) && IsName(file)
    ensures Listed(w, u, AnnotationsUserDir(org, arr, voice, user), Entry(file, Leaf(size)))
       <==> Stat(w, u, AnnotationFile(org, arr, voice, user, file)) == Ok(Leaf(size))
  {
    AnnotationTexts(org, arr, voice, user, file);
    ObjectsExactly(w, AnnotationsPrefix(org, arr, voice) + user, file, size);
    UserDirLists(w, u, org, arr, voice, user, Entry(file, Leaf(size)));
    AnnotationStats(w, u, org, arr, voice, user, file);
  }

  lemma ObjectsExactly(w: World, q: string, file: string, size: nat)
    requires IsName(file)
    ensures (exists k <- ChildObjects(w, q + "/") :: ObjectEntry(w, k) == Entry(file, Leaf(size)))
       <==> q + "/" + file in w.objects && w.objects[q + "/" + file] == size
  {
    ObjectsUnder(w, q, file);
    if q + "/" + file in w.objects && w.objects[q + "/" + file] == size {
      assert ObjectEntry(w, q + "/" + file) == Entry(file, Leaf(size));
    }
  }

  lemma AnnotationStats(w: World, u: User, org: string, arr: string, voice: string, user: string, file: string)
    requires S.Lookups(w.db)
    ensures var key := AnnotationKey(org, arr, voice, user, file);
            Stat(w, u, AnnotationFile(org, arr, voice, user, file))
            == if ResolveVoice(w.db, u.id, org, arr, voice).Ok? && key in w.objects then Ok(Leaf(w.objects[key]))
               else Err(NotFound)
  {
  }

  lemma UserDirLists(w: World, u: User, org: string, arr: string, voice: string, user: string, e: Entry)
    requires S.Lookups(w.db)
    ensures Listed(w, u, AnnotationsUserDir(org, arr, voice, user), e)
       <==> && ResolveVoice(w.db, u.id, org, arr, voice).Ok?
            && exists k <- ChildObjects(w, AnnotationsPrefix(org, arr, voice) + user + "/") :: ObjectEntry(w, k) == e
  {
  }

  /** The authors listed for a voice are those with something under their name. */
  lemma AuthorsListed(w: World, u: User, org: string, arr: string, voice: string, user: string)
    requires S.Lookups(w.db) && IsName(user) && NoEmptyNames(w, AnnotationsPrefix(org, arr, voice))
    ensures Listed(w, u, AnnotationsDir(org, arr, voice), DirEntry(user))
       <==> && Stat(w, u, AnnotationsDir(org, arr, voice)).Ok?
            && exists k <- w.objects :: AnnotationsPrefix(org, arr, voice) + user + "/" <= k
  {
    var q := AnnotationsRoot(org, arr, voice);
    AnnotationsRootText(org, arr, voice);
    DirsUnder(w, q, user);
    AuthorDirLists(w, u, org, arr, voice, user);
  }

  function AnnotationsRoot(org: string, arr: string, voice: string): string {
    Slash("orgs", Slash(org, Slash("arrangements", Slash(arr, Slash("voices", Slash(voice, "annotations"))))))
  }

  lemma AnnotationsRootText(org: string, arr: string, voice: string)
    ensures AnnotationsPrefix(org, arr, voice) == AnnotationsRoot(org, arr, voice) + "/"
  {
  }

  lemma AuthorDirLists(w: World, u: User, org: string, arr: string, voice: string, user: string)
    requires S.Lookups(w.db)
    ensures Listed(w, u, AnnotationsDir(org, arr, voice), DirEntry(user))
       <==> && Stat(w, u, AnnotationsDir(org, arr, voice)).Ok?
            && exists d <- CommonPrefixes(w, AnnotationsPrefix(org, arr, voice)) :: Basename(d) == user
  {
  }
}
