/** The knowledge-base loader and chunker of `rag_pipeline/loader.py`.

    The file system is an oracle: `walk` gives the `os.walk` listing of a
    directory (None when the path is not a directory) and `read` the
    contents of a file (None when opening or reading it raises). The text
    splitter is an oracle too. */
module Loader {
  import opened Wrappers
  import opened Text

  /** One step of `os.walk`: a directory and the names of the files directly in it. */
  datatype WalkEntry = WalkEntry(root: string, files: seq<string>)

  datatype FileSystem = FileSystem(walk: string -> Option<seq<WalkEntry>>, read: string -> Option<string>)

  /** A LangChain `Document`. */
  datatype Document = Document(pageContent: string)

  /** `RecursiveCharacterTextSplitter(chunk_size, chunk_overlap).split_documents`. */
  type Splitter = (seq<Document>, int, int) -> seq<Document>

  const DefaultChunkSize: int := 1000
  const DefaultChunkOverlap: int := 200

  /** The name, lowercased, ends with ".txt", ".md" or ".markdown". */
  predicate IsTextFile(name: string) {
    var l := Lower(name);
    EndsWith(l, ".txt") || EndsWith(l, ".md") || EndsWith(l, ".markdown")
  }

  /** `os.path.join(root, name)` for a plain file name. */
  function PathJoin(root: string, name: string): string {
    if root == "" || EndsWith(root, "/") then root + name else root + "/" + name
  }

  /** The paths of the text files among `files`, in listing order. */
  function DirPaths(root: string, files: seq<string>): seq<string>
    decreases |files|
  {
    if files == [] then []
    else
      var name := files[|files| - 1];
      DirPaths(root, files[..|files| - 1]) + (if IsTextFile(name) then [PathJoin(root, name)] else [])
  }

  /** The paths of the text files of a whole walk, in walk order. */
  function WalkPaths(entries: seq<WalkEntry>): seq<string>
    decreases |entries|
  {
    if entries == [] then []
    else
      var e := entries[|entries| - 1];
      WalkPaths(entries[..|entries| - 1]) + DirPaths(e.root, e.files)
  }

  /** The contents of the readable files among `paths`, in order. */
  function ReadAll(read: string -> Option<string>, paths: seq<string>): seq<string>
    decreases |paths|
  {
    if paths == [] then []
    else
      var p := paths[|paths| - 1];
      ReadAll(read, paths[..|paths| - 1]) + (if read(p).Some? then [read(p).value] else [])
  }

  /** What `load_texts_from_folder(folder)` returns. */
  function FolderTexts(fs: FileSystem, folder: string): seq<string> {
    match fs.walk(folder)
    case None => []
    case Some(entries) => ReadAll(fs.read, WalkPaths(entries))
  }

  /** `load_texts_from_folder`: the texts of the readable text files under
      `folder`, appended in walk order; nothing for a path that is not a directory. */
  method LoadTextsFromFolder(fs: FileSystem, folder: string) returns (texts: seq<string>)
    ensures texts == FolderTexts(fs, folder)
    ensures fs.walk(folder).None? ==> texts == []
  {
    texts := [];
    var walk := fs.walk(folder);
    if walk.None? {
      return texts;
    }
    var entries := walk.value;
    ghost var done: seq<string> := [];
    var i := 0;
    while i < |entries|
      invariant 0 <= i <= |entries|
      invariant done == WalkPaths(entries[..i])
      invariant texts == ReadAll(fs.read, done)
    {
      var root := entries[i].root;
      var files := entries[i].files;
      var j := 0;
      assert files[..0] == [] && done + [] == done;
      while j < |files|
        invariant 0 <= j <= |files|
        invariant texts == ReadAll(fs.read, done + DirPaths(root, files[..j]))
      {
        var name := files[j];
        assert files[..j + 1][..j] == files[..j];
        if IsTextFile(name) {
          var path := PathJoin(root, name);
          assert done + DirPaths(root, files[..j + 1]) == (done + DirPaths(root, files[..j])) + [path];
          var content := fs.read(path);
          if content.Some? {
            texts := texts + [content.value];
          }
        } else {
          assert DirPaths(root, files[..j + 1]) == DirPaths(root, files[..j]);
        }
        j := j + 1;
      }
      assert files[..j] == files;
      assert entries[..i + 1][..i] == entries[..i];
      done := done + DirPaths(root, files);
      i := i + 1;
    }
    assert entries[..i] == entries;
  }

  /** The texts handed to the splitter: each text whose `strip()` is non-empty, as a Document. */
  function NonBlankDocs(texts: seq<string>): seq<Document>
    decreases |texts|
  {
    if texts == [] then []
    else if Strip(texts[0]) == "" then NonBlankDocs(texts[1..])
    else [Document(texts[0])] + NonBlankDocs(texts[1..])
  }

  /** `chunk_texts`: blank texts are dropped, then the rest are split. */
  function ChunkTexts(texts: seq<string>, split: Splitter,
                      chunkSize: int := DefaultChunkSize, chunkOverlap: int := DefaultChunkOverlap): seq<Document>
  {
    split(NonBlankDocs(texts), chunkSize, chunkOverlap)
  }

  /** `load_documents`: the chunks of the folder's texts, with the same size and overlap. */
  method LoadDocuments(fs: FileSystem, folder: string, split: Splitter,
                       chunkSize: int := DefaultChunkSize, chunkOverlap: int := DefaultChunkOverlap)
    returns (chunks: seq<Document>)
    ensures chunks == ChunkTexts(FolderTexts(fs, folder), split, chunkSize, chunkOverlap)
  {
    var texts := LoadTextsFromFolder(fs, folder);
    chunks := ChunkTexts(texts, split, chunkSize, chunkOverlap);
  }

  // ---------------------------------------------------------------------
  // Properties

  lemma {:induction false} ReadAllAppend(read: string -> Option<string>, a: seq<string>, b: seq<string>)
    ensures ReadAll(read, a + b) == ReadAll(read, a) + ReadAll(read, b)
    decreases |b|
  {
    if b != [] {
      var b' := b[..|b| - 1];
      assert (a + b)[..|a + b| - 1] == a + b';
      ReadAllAppend(read, a, b');
    } else {
      assert a + b == a;
    }
  }

  /** At most one text per text file of the walk. */
  lemma {:induction false} AtMostOneTextPerFile(read: string -> Option<string>, paths: seq<string>)
    ensures |ReadAll(read, paths)| <= |paths|
    decreases |paths|
  {
    if paths != [] {
      AtMostOneTextPerFile(read, paths[..|paths| - 1]);
    }
  }

  /** When every text file is readable, each contributes its contents, in walk order. */
  lemma {:induction false} AllReadableAllLoaded(read: string -> Option<string>, paths: seq<string>)
    requires forall i :: 0 <= i < |paths| ==> read(paths[i]).Some?
    ensures |ReadAll(read, paths)| == |paths|
    ensures forall i :: 0 <= i < |paths| ==> ReadAll(read, paths)[i] == read(paths[i]).value
    decreases |paths|
  {
    if paths != [] {
      AllReadableAllLoaded(read, paths[..|paths| - 1]);
    }
  }

  /** An unreadable file is skipped and the files around it are still read. */
  lemma UnreadableFileSkipped(read: string -> Option<string>, before: seq<string>, p: string, after: seq<string>)
    requires read(p).None?
    ensures ReadAll(read, before + [p] + after) == ReadAll(read, before) + ReadAll(read, after)
  {
    ReadAllAppend(read, before + [p], after);
    assert (before + [p])[..|before + [p]| - 1] == before;
  }

  lemma {:induction false} DirPathsAppend(root: string, a: seq<string>, b: seq<string>)
    ensures DirPaths(root, a + b) == DirPaths(root, a) + DirPaths(root, b)
    decreases |b|
  {
    if b != [] {
      var b' := b[..|b| - 1];
      assert (a + b)[..|a + b| - 1] == a + b';
      DirPathsAppend(root, a, b');
    } else {
      assert a + b == a;
    }
  }

  /** Only text files contribute: a file whose name does not end in a
      recognised extension changes nothing. */
  lemma OtherFilesIgnored(root: string, before: seq<string>, name: string, after: seq<string>)
    requires !IsTextFile(name)
    ensures DirPaths(root, before + [name] + after) == DirPaths(root, before + after)
  {
    DirPathsAppend(root, before + [name], after);
    DirPathsAppend(root, before, after);
    assert (before + [name])[..|before + [name]| - 1] == before;
  }

  /** The extension test ignores case: a name and its lowercase form are
      alike, and any stem followed by ".TXT", ".Md" or ".MarkDown" is a text
      file while one followed by ".pdf" is not. */
  lemma ExtensionIgnoresCase(name: string, stem: string)
    ensures IsTextFile(name) <==> IsTextFile(Lower(name))
    ensures IsTextFile(stem + ".TXT") && IsTextFile(stem + ".Md") && IsTextFile(stem + ".MarkDown")
    ensures !IsTextFile(stem + ".pdf")
  {
    LowerIdempotent(name);
    LowerAppend(stem, ".TXT");
    LowerAppend(stem, ".Md");
    LowerAppend(stem, ".MarkDown");
    LowerAppend(stem, ".pdf");
    var l := Lower(stem);
    assert Lower(".TXT") == ".txt";
    assert Lower(".Md") == ".md";
    assert Lower(".MarkDown") == ".markdown";
    assert Lower(".pdf") == ".pdf";
    assert (l + ".txt")[|l + ".txt"| - 4..] == ".txt";
    assert (l + ".md")[|l + ".md"| - 3..] == ".md";
    assert (l + ".markdown")[|l + ".markdown"| - 9..] == ".markdown";
    var p := l + ".pdf";
    assert p[|p| - 4..] == ".pdf";
    assert !EndsWith(p, ".txt") by { assert p[|p| - 1] == 'f'; }
    assert !EndsWith(p, ".md") by { assert p[|p| - 1] == 'f'; }
    assert !EndsWith(p, ".markdown") by { assert p[|p| - 1] == 'f'; }
  }

  lemma {:induction false} NonBlankDocsAppend(a: seq<string>, b: seq<string>)
    ensures NonBlankDocs(a + b) == NonBlankDocs(a) + NonBlankDocs(b)
    decreases |a|
  {
    if a == [] {
      assert a + b == b;
    } else {
      assert (a + b)[0] == a[0] && (a + b)[1..] == a[1..] + b;
      NonBlankDocsAppend(a[1..], b);
    }
  }

  /** Blank texts never reach the splitter: removing one changes nothing. */
  lemma BlankTextsDropped(before: seq<string>, blank: string, after: seq<string>, split: Splitter, size: int, overlap: int)
    requires IsBlank(blank)
    ensures ChunkTexts(before + [blank] + after, split, size, overlap) == ChunkTexts(before + after, split, size, overlap)
  {
    assert NonBlankDocs([blank]) == [] by {
      assert [blank][1..] == [];
    }
    calc {
      NonBlankDocs(before + [blank] + after);
      { NonBlankDocsAppend(before + [blank], after); }
      NonBlankDocs(before + [blank]) + NonBlankDocs(after);
      { NonBlankDocsAppend(before, [blank]); }
      NonBlankDocs(before) + NonBlankDocs(after);
      { NonBlankDocsAppend(before, after); }
      NonBlankDocs(before + after);
    }
  }

  /** Exactly the non-blank texts reach the splitter, each as one Document. */
  lemma {:induction false} NonBlankDocsMembers(texts: seq<string>)
    ensures |NonBlankDocs(texts)| <= |texts|
    ensures forall d :: d in NonBlankDocs(texts) ==> d.pageContent in texts && !IsBlank(d.pageContent)
    ensures forall t :: t in texts && !IsBlank(t) ==> Document(t) in NonBlankDocs(texts)
    decreases |texts|
  {
    if texts != [] {
      NonBlankDocsMembers(texts[1..]);
      assert forall t :: t in texts ==> t == texts[0] || t in texts[1..];
    }
  }

  /** Only blank texts: the splitter is handed no documents. */
  lemma {:induction false} AllBlankGivesNoDocs(texts: seq<string>)
    requires forall i :: 0 <= i < |texts| ==> IsBlank(texts[i])
    ensures NonBlankDocs(texts) == []
    decreases |texts|
  {
    if texts != [] {
      assert IsBlank(texts[0]);
      AllBlankGivesNoDocs(texts[1..]);
    }
  }
}
