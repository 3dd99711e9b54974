/** ugh.dl.FileSet: the content files of a digital document, loose metadata
    valid for all of them, a log of removed metadata, and the virtual file
    groups used for viewer METS. */
module FileSets {
  import opened Records
  import opened Lists

  /** The 80-dash separator line of the textual dump. */
  const Line: string := "--------------------" + "--------------------"
                      + "--------------------" + "--------------------"

  /** A section heading: the title between two separator lines. */
  function SectionHeader(title: string): string
  {
    Line + "\n" + title + "\n" + Line + "\n"
  }

  /** The dump line of one content file. */
  function FileLine(f: ContentFile): string
  {
    "ContentFile (" + f.identifier + "): '" + f.location + "' (" + f.mimetype + ")" + "\n"
  }

  /** The lines `line` gives for the elements of `s`, one after another in list order. */
  function Lines<T>(s: seq<T>, line: T -> string): string
  {
    if s == [] then "" else Lines(s[..|s| - 1], line) + line(s[|s| - 1])
  }

  /** The dump lines of the files, in list order. */
  function FileLines(fs: seq<ContentFile>): string
  {
    Lines(fs, FileLine)
  }

  /** The body of the file section: a placeholder when there are no files. */
  function FileSection(fs: seq<ContentFile>): string
  {
    if |fs| == 0 then "NO FILES" + "\n" else FileLines(fs)
  }

  /** The dump line of one virtual file group. */
  function GroupLine(g: VirtualFileGroup): string
  {
    "NAME: " + g.name + ", FILESUFFIX: " + g.fileSuffix + ", MIMETYPE: " + g.mimetype
    + ", IDSUFFIX: " + g.idSuffix + ", PATH: " + g.pathToFiles + "\n"
  }

  /** The dump lines of the groups, in list order. */
  function GroupLines(gs: seq<VirtualFileGroup>): string
  {
    Lines(gs, GroupLine)
  }

  /** The body of the group section: a placeholder when there are no groups. */
  function GroupSection(gs: seq<VirtualFileGroup>): string
  {
    if |gs| == 0 then "NONE\n" else GroupLines(gs)
  }

  /** The whole textual dump of a file set with these files and groups. */
  function Describe(fs: seq<ContentFile>, gs: seq<VirtualFileGroup>): string
  {
    SectionHeader("FileSet") + FileSection(fs) + SectionHeader("VirtualFileGroups") + GroupSection(gs)
  }

  class FileSet {
    var allImages: seq<ContentFile>
    var allMetadata: seq<Metadata>
    var removedMetadata: seq<Metadata>
    var virtualFileGroups: seq<VirtualFileGroup>

    /** Each content file is held at most once. */
    ghost predicate Valid()
      reads this
    {
      NoDuplicates(allImages)
    }

    constructor ()
      ensures Valid()
      ensures allImages == [] && allMetadata == []
      ensures removedMetadata == [] && virtualFileGroups == []
    {
      allImages := [];
      allMetadata := [];
      removedMetadata := [];
      virtualFileGroups := [];
    }

    /** Adds a file unless it is already present. */
    method AddFile(inImage: ContentFile)
      requires Valid()
      modifies this`allImages
      ensures Valid()
      ensures allImages == AppendIfAbsent(old(allImages), inImage)
      ensures allImages == if inImage in old(allImages) then old(allImages) else old(allImages) + [inImage]
      ensures multiset(allImages)[inImage] == 1
      ensures allMetadata == old(allMetadata) && removedMetadata == old(removedMetadata)
      ensures virtualFileGroups == old(virtualFileGroups)
    {
      AppendIfAbsentKeepsNoDuplicates(allImages, inImage);
      if inImage !in allImages {
        allImages := allImages + [inImage];
      }
    }

    /** Removes a file; nothing happens when it is absent. */
    method RemoveFile(inImage: ContentFile)
      requires Valid()
      modifies this`allImages
      ensures Valid()
      ensures allImages == RemoveFirst(old(allImages), inImage)
      ensures inImage !in allImages
      ensures inImage !in old(allImages) ==> allImages == old(allImages)
      ensures allMetadata == old(allMetadata) && removedMetadata == old(removedMetadata)
      ensures virtualFileGroups == old(virtualFileGroups)
    {
      RemoveFirstKeepsNoDuplicates(allImages, inImage);
      if inImage !in allImages {
        RemoveFirstAbsent(allImages, inImage);
      }
      allImages := RemoveFirst(allImages, inImage);
    }

    /** Appends a metadata element, without any validation; always succeeds. */
    method AddMetadata(inMD: Metadata) returns (ok: bool)
      requires Valid()
      modifies this`allMetadata
      ensures Valid()
      ensures ok
      ensures allMetadata == old(allMetadata) + [inMD]
      ensures allImages == old(allImages) && removedMetadata == old(removedMetadata)
      ensures virtualFileGroups == old(virtualFileGroups)
    {
      allMetadata := allMetadata + [inMD];
      ok := true;
    }

    /** Logs the element as removed, whether or not it was present, then removes
        its first occurrence; always succeeds. */
    method RemoveMetadata(inMD: Metadata) returns (ok: bool)
      requires Valid()
      modifies this`allMetadata, this`removedMetadata
      ensures Valid()
      ensures ok
      ensures removedMetadata == old(removedMetadata) + [inMD]
      ensures allMetadata == RemoveFirst(old(allMetadata), inMD)
      ensures multiset(allMetadata) == multiset(old(allMetadata)) - multiset{inMD}
      ensures allImages == old(allImages) && virtualFileGroups == old(virtualFileGroups)
    {
      RemoveFirstMultiset(allMetadata, inMD);
      removedMetadata := removedMetadata + [inMD];
      allMetadata := RemoveFirst(allMetadata, inMD);
      ok := true;
    }

    /** Replaces the list of virtual file groups. */
    method SetVirtualFileGroups(theVirtualFileGroupList: seq<VirtualFileGroup>)
      requires Valid()
      modifies this`virtualFileGroups
      ensures Valid()
      ensures virtualFileGroups == theVirtualFileGroupList
      ensures allImages == old(allImages) && allMetadata == old(allMetadata)
      ensures removedMetadata == old(removedMetadata)
    {
      virtualFileGroups := theVirtualFileGroupList;
    }

    /** Appends a virtual file group. */
    method AddVirtualFileGroup(theFilegroup: VirtualFileGroup)
      requires Valid()
      modifies this`virtualFileGroups
      ensures Valid()
      ensures virtualFileGroups == old(virtualFileGroups) + [theFilegroup]
      ensures allImages == old(allImages) && allMetadata == old(allMetadata)
      ensures removedMetadata == old(removedMetadata)
    {
      virtualFileGroups := virtualFileGroups + [theFilegroup];
    }

    /** Removes the first occurrence of a virtual file group; nothing happens when it is absent. */
    method RemoveVirtualFileGroup(theFilegroup: VirtualFileGroup)
      requires Valid()
      modifies this`virtualFileGroups
      ensures Valid()
      ensures virtualFileGroups == RemoveFirst(old(virtualFileGroups), theFilegroup)
      ensures theFilegroup !in old(virtualFileGroups) ==> virtualFileGroups == old(virtualFileGroups)
      ensures allImages == old(allImages) && allMetadata == old(allMetadata)
      ensures removedMetadata == old(removedMetadata)
    {
      if theFilegroup !in virtualFileGroups {
        RemoveFirstAbsent(virtualFileGroups, theFilegroup);
      }
      virtualFileGroups := RemoveFirst(virtualFileGroups, theFilegroup);
    }

    /** The textual dump, built line by line as the source builds it in a buffer. */
    method ToString() returns (result: string)
      ensures result == Describe(allImages, virtualFileGroups)
    {
      result := SectionHeader("FileSet");
      ghost var header := result;
      if |allImages| == 0 {
        result := result + "NO FILES" + "\n";
        assert result == header + FileSection(allImages);
      } else {
        var buffer := AppendLines(allImages, FileLine);
        result := result + buffer;
      }
      ghost var front := result;
      assert front == header + FileSection(allImages);
      result := result + SectionHeader("VirtualFileGroups");
      if |virtualFileGroups| == 0 {
        result := result + "NONE\n";
      } else {
        var buffer := AppendLines(virtualFileGroups, GroupLine);
        result := result + buffer;
      }
      assert result == front + SectionHeader("VirtualFileGroups") + GroupSection(virtualFileGroups);
    }
  }

  /** The string buffer loop of the dump: appends the line of each element in turn. */
  method AppendLines<T>(s: seq<T>, line: T -> string) returns (buffer: string)
    ensures buffer == Lines(s, line)
  {
    buffer := "";
    for i := 0 to |s|
      invariant buffer == Lines(s[..i], line)
    {
      assert s[..i + 1][..i] == s[..i];
      buffer := buffer + line(s[i]);
    }
    assert s[..|s|] == s;
  }

  // ---------------------------------------------------------------------------
  // Properties of the textual dump
  // ---------------------------------------------------------------------------

  /** If every line starts with `prefix`, so do the lines of a non-empty list. */
  lemma {:induction false} LinesStart<T>(s: seq<T>, line: T -> string, prefix: string)
    requires s != []
    requires forall x :: prefix <= line(x)
    ensures prefix <= Lines(s, line)
  {
    if |s| > 1 {
      LinesStart(s[..|s| - 1], line, prefix);
    } else {
      assert s[..0] == [];
      assert Lines(s, line) == line(s[0]);
    }
  }

  /** The lines of a concatenation are the concatenated lines. */
  lemma {:induction false} LinesAppend<T>(a: seq<T>, b: seq<T>, line: T -> string)
    ensures Lines(a + b, line) == Lines(a, line) + Lines(b, line)
  {
    if b == [] {
      assert a + b == a;
    } else {
      var c := b[..|b| - 1];
      LinesAppend(a, c, line);
      assert (a + b)[..|a + b| - 1] == a + c;
    }
  }

  /** The line of the k-th element sits between the lines of the elements before and after it. */
  lemma {:induction false} LinesAt<T>(s: seq<T>, k: nat, line: T -> string)
    requires k < |s|
    ensures Lines(s, line) == Lines(s[..k], line) + line(s[k]) + Lines(s[k + 1..], line)
  {
    var p, q := s[..k + 1], s[k + 1..];
    assert s == p + q;
    LinesAppend(p, q, line);
    assert p[..k] == s[..k];
    assert Lines(p, line) == Lines(s[..k], line) + line(s[k]);
  }

  /** The file section is the "NO FILES" placeholder exactly when there are no files. */
  lemma FileSectionPlaceholder(fs: seq<ContentFile>)
    ensures FileSection(fs) == "NO FILES\n" <==> fs == []
  {
    if fs != [] {
      forall f ensures "ContentFile (" <= FileLine(f) { }
      LinesStart(fs, FileLine, "ContentFile (");
      assert FileSection(fs)[0] == 'C';
    }
  }

  /** The group section is the "NONE" placeholder exactly when there are no groups. */
  lemma GroupSectionPlaceholder(gs: seq<VirtualFileGroup>)
    ensures GroupSection(gs) == "NONE\n" <==> gs == []
  {
    if gs != [] {
      forall g ensures "NAME: " <= GroupLine(g) { }
      LinesStart(gs, GroupLine, "NAME: ");
      assert GroupSection(gs)[1] == 'A';
    }
  }

  /** One line per file, in list order: the k-th file's line follows those of the files before it. */
  lemma FileLinesAt(fs: seq<ContentFile>, k: nat)
    requires k < |fs|
    ensures FileLines(fs) == FileLines(fs[..k]) + FileLine(fs[k]) + FileLines(fs[k + 1..])
  {
    LinesAt(fs, k, FileLine);
  }

  /** One line per group, in list order: the k-th group's line follows those of the groups before it. */
  lemma GroupLinesAt(gs: seq<VirtualFileGroup>, k: nat)
    requires k < |gs|
    ensures GroupLines(gs) == GroupLines(gs[..k]) + GroupLine(gs[k]) + GroupLines(gs[k + 1..])
  {
    LinesAt(gs, k, GroupLine);
  }

  /** A new file set dumps as the two headings, each with its placeholder. */
  lemma DescribeEmpty()
    ensures Describe([], []) ==
      SectionHeader("FileSet") + "NO FILES\n" + SectionHeader("VirtualFileGroups") + "NONE\n"
  {
  }

  // ---------------------------------------------------------------------------
  // Properties of the list operations, as FileSet uses them
  // ---------------------------------------------------------------------------

  /** Adding the same file twice leaves it in the list exactly once, as adding it once does. */
  lemma AddFileTwice(fs: seq<ContentFile>, f: ContentFile)
    requires NoDuplicates(fs)
    ensures AppendIfAbsent(AppendIfAbsent(fs, f), f) == AppendIfAbsent(fs, f)
    ensures multiset(AppendIfAbsent(AppendIfAbsent(fs, f), f))[f] == 1
  {
    AppendIfAbsentIdempotent(fs, f);
    AppendIfAbsentKeepsNoDuplicates(fs, f);
  }

  /** Removing a file that was just added to a list that lacked it restores the list. */
  lemma AddThenRemoveFile(fs: seq<ContentFile>, f: ContentFile)
    requires f !in fs
    ensures RemoveFirst(AppendIfAbsent(fs, f), f) == fs
  {
    RemoveFirstAfterAppend(fs, f);
  }

  /** Removed metadata is gone from the active list exactly when it occurred there at most once:
      with two copies, the later one stays active although the element is logged as removed. */
  lemma RemovedMetadataInactive(ms: seq<Metadata>, m: Metadata)
    ensures m !in RemoveFirst(ms, m) <==> multiset(ms)[m] <= 1
  {
    RemoveFirstMultiset(ms, m);
    assert m in RemoveFirst(ms, m) <==> multiset(RemoveFirst(ms, m))[m] > 0;
  }
}
