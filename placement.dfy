/** File placement: select the decrypted book's files in the scratch
    directory, order them so audio files come last, and move them one by one
    into the books directory, rewriting cue sheets to name the final audio
    file. Moving audio last means a reader of the books directory sees the
    book as present only once its audio file has landed. */
module FilePlacement {
  import opened Common
  import opened Text
  import opened Files
  import opened Library

  const MoveFailed: string := "File.Move failed"

  /** AudibleFileStorage.Audio.IsFileTypeMatch. */
  function IsAudio(s: Storage, f: Path): bool {
    s.isFileTypeMatch(f)
  }

  /** Cue.UpdateFileName: the cue sheet text made to reference the audio file. */
  function CueUpdated(s: Storage, cue: Content, audioFileName: Path): Content {
    s.cueUpdateFileName(cue, audioFileName)
  }

  /** The scratch files that belong to the product: names containing the
      product id, compared ignoring case. */
  function ProductFiles(listing: seq<Path>, productId: string): (r: seq<Path>)
    ensures forall f :: f in r <==> f in listing && ContainsInsensitive(f.name, productId)
    ensures NoDuplicates(listing) ==> NoDuplicates(r)
  {
    var r := Filter(listing, (f: Path) => ContainsInsensitive(f.name, productId));
    if NoDuplicates(listing) then
      FilterNoDuplicates(listing, (f: Path) => ContainsInsensitive(f.name, productId));
      r
    else
      r
  }

  /** getProductFilesSorted: the product's files with the audio ones moved to
      the end (files.Except(musicFiles).Concat(musicFiles)). Exactly the
      product's files are kept. */
  function SortProductFiles(listing: seq<Path>, productId: string, isAudio: Path -> bool): (r: seq<Path>)
    ensures forall f :: f in r <==> f in listing && ContainsInsensitive(f.name, productId)
  {
    var files := ProductFiles(listing, productId);
    var musicFiles := Filter(files, isAudio);
    ExceptKeepsAll(files, isAudio);
    Except(files, musicFiles) + musicFiles
  }

  /** Every element of files is either kept by Except or among the ones it
      drops, so the concatenation loses nothing. */
  lemma ExceptKeepsAll(files: seq<Path>, isAudio: Path -> bool)
    ensures forall f :: f in Except(files, Filter(files, isAudio)) + Filter(files, isAudio) <==> f in files
  {
    var musicFiles := Filter(files, isAudio);
    ExceptFromMembers(files, set y | y in musicFiles);
    forall f | f in files && isAudio(f) ensures f in musicFiles {
      var k :| 0 <= k < |files| && files[k] == f;
    }
  }

  /** The sorted list is the non-audio files followed by the audio files, each
      group in listing order. */
  lemma SortedIsStablePartition(listing: seq<Path>, productId: string, isAudio: Path -> bool)
    requires NoDuplicates(listing)
    ensures var files := ProductFiles(listing, productId);
      SortProductFiles(listing, productId, isAudio) == Filter(files, Not(isAudio)) + Filter(files, isAudio)
  {
    var files := ProductFiles(listing, productId);
    var musicFiles := Filter(files, isAudio);
    var banned := set y | y in musicFiles;
    ExceptFromIsFilter(files, banned);
    forall x | x in files ensures (x !in banned) == Not(isAudio)(x) {
      if isAudio(x) {
        var i :| 0 <= i < |files| && files[i] == x;
      }
    }
    FilterCongruent(files, x => x !in banned, Not(isAudio));
  }

  /** No audio file comes before a non-audio file. */
  lemma SortedAudioLast(listing: seq<Path>, productId: string, isAudio: Path -> bool)
    ensures var r := SortProductFiles(listing, productId, isAudio);
      forall i, j :: 0 <= i < j < |r| && isAudio(r[i]) ==> isAudio(r[j])
  {
    var files := ProductFiles(listing, productId);
    var musicFiles := Filter(files, isAudio);
    var banned := set y | y in musicFiles;
    var front := ExceptFrom(files, banned);
    ExceptFromMembers(files, banned);
    var r := front + musicFiles;
    forall i | 0 <= i < |front| ensures !isAudio(r[i]) {
      assert r[i] == front[i] && front[i] in front;
    }
    forall j | |front| <= j < |r| ensures isAudio(r[j]) {
      assert r[j] == musicFiles[j - |front|] && musicFiles[j - |front|] in musicFiles;
    }
  }

  /** Each of the product's files is selected once. */
  lemma SortedSelection(listing: seq<Path>, productId: string, isAudio: Path -> bool)
    requires NoDuplicates(listing)
    ensures NoDuplicates(SortProductFiles(listing, productId, isAudio))
  {
    var files := ProductFiles(listing, productId);
    SortedIsStablePartition(listing, productId, isAudio);
    var front, back := Filter(files, Not(isAudio)), Filter(files, isAudio);
    FilterNoDuplicates(files, Not(isAudio));
    FilterNoDuplicates(files, isAudio);
    var r := front + back;
    forall i, j | 0 <= i < j < |r| ensures r[i] != r[j] {
      if i < |front| <= j {
        assert r[i] in front && r[j] in back;
      }
    }
  }

  /** Within each group the listing order is kept. */
  lemma SortedStable(listing: seq<Path>, productId: string, isAudio: Path -> bool)
    requires NoDuplicates(listing)
    ensures var files := ProductFiles(listing, productId);
      var r := SortProductFiles(listing, productId, isAudio);
      Filter(r, isAudio) == Filter(files, isAudio) && Filter(r, Not(isAudio)) == Filter(files, Not(isAudio))
  {
    var files := ProductFiles(listing, productId);
    SortedIsStablePartition(listing, productId, isAudio);
    var front, back := Filter(files, Not(isAudio)), Filter(files, isAudio);
    FilterAppend(front, back, isAudio);
    FilterAppend(front, back, Not(isAudio));
    FilterNone(front, isAudio);
    FilterAll(back, isAudio);
    FilterAll(front, Not(isAudio));
    FilterNone(back, Not(isAudio));
    assert front + [] == front;
  }

  /** Where the files go: the books directory, the path of the final audio
      file, and the audio extension ("m4b" or "mp3") that sidecar names carry. */
  datatype Target = Target(destinationDir: string, musicFileExt: string, audioFileName: Path)

  /** GetDestDir for the book; the extension read back off the decrypted file's
      name with its dot trimmed; GetValidFilename for the audio file. */
  function TargetFor(s: Storage, product: Book, outputAudioFilename: Path): (r: Target)
    ensures r.destinationDir == s.getDestDir(product.title, product.audibleProductId)
    ensures '.' !in r.musicFileExt
    ensures GetExtension(outputAudioFilename.name) == if r.musicFileExt == [] then [] else "." + r.musicFileExt
    ensures r.audioFileName == s.getValidFilename(r.destinationDir, product.title, r.musicFileExt, [product.audibleProductId])
  {
    var destinationDir := s.getDestDir(product.title, product.audibleProductId);
    var extension := GetExtension(outputAudioFilename.name);
    GetExtensionShape(outputAudioFilename.name);
    TrimExtension(outputAudioFilename.name);
    assert extension != [] ==> extension == "." + extension[1..];
    var musicFileExt := Trim(extension, '.');
    Target(destinationDir, musicFileExt,
      s.getValidFilename(destinationDir, product.title, musicFileExt, [product.audibleProductId]))
  }

  /** An audio file goes to the audio file name; any other file gets a name
      that carries its own extension and the audio extension as suffix. */
  function Destination(s: Storage, product: Book, t: Target, f: Path): (r: Path)
    ensures IsAudio(s, f) ==> r == t.audioFileName
    ensures !IsAudio(s, f) ==>
      r == s.getValidFilename(t.destinationDir, product.title, GetExtension(f.name), [product.audibleProductId, t.musicFileExt])
  {
    if s.isFileTypeMatch(f) then t.audioFileName
    else s.getValidFilename(t.destinationDir, product.title, GetExtension(f.name), [product.audibleProductId, t.musicFileExt])
  }

  /** The moves the placement loop makes, one per file, in order. */
  function PlanMoves(s: Storage, product: Book, t: Target, files: seq<Path>): (r: seq<FileMove>)
    ensures |r| == |files|
    ensures forall i :: 0 <= i < |files| ==> r[i] == FileMove(files[i], Destination(s, product, t, files[i]))
  {
    if files == [] then []
    else
      var last := files[|files| - 1];
      PlanMoves(s, product, t, files[..|files| - 1]) + [FileMove(last, Destination(s, product, t, last))]
  }

  /** The planned moves never move an audio file before a non-audio one, and
      every audio file goes to the audio file name. */
  lemma PlanMovesAudioLast(s: Storage, product: Book, t: Target, listing: seq<Path>)
    ensures var plan := PlanMoves(s, product, t, SortProductFiles(listing, product.audibleProductId, s.isFileTypeMatch));
      (forall i, j :: 0 <= i < j < |plan| && s.isFileTypeMatch(plan[i].src) ==> s.isFileTypeMatch(plan[j].src)) &&
      (forall i :: 0 <= i < |plan| && s.isFileTypeMatch(plan[i].src) ==> plan[i].dest == t.audioFileName)
  {
    SortedAudioLast(listing, product.audibleProductId, s.isFileTypeMatch);
  }

  /** A destination whose extension, dot trimmed and lower-cased, is "cue". */
  predicate IsCue(dest: Path)
    ensures IsCue(dest) <==>
      |dest.name| >= 4 && dest.name[|dest.name| - 4] == '.' && ToLower(dest.name[|dest.name| - 3..]) == "cue"
  {
    CueName(dest.name);
    ToLower(Trim(GetExtension(dest.name), '.')) == "cue"
  }

  /** A name's extension reads "cue" ignoring case exactly when the name ends
      with a dot and three characters that fold to "cue". */
  lemma CueName(name: string)
    ensures ToLower(Trim(GetExtension(name), '.')) == "cue" <==>
      |name| >= 4 && name[|name| - 4] == '.' && ToLower(name[|name| - 3..]) == "cue"
  {
    var e := GetExtension(name);
    GetExtensionShape(name);
    TrimExtension(name);
    if ToLower(Trim(e, '.')) == "cue" {
      assert |e| == 4;
      assert name[|name| - 4] == e[0];
      assert name[|name| - 3..] == e[1..];
    }
    if |name| >= 4 && name[|name| - 4] == '.' && ToLower(name[|name| - 3..]) == "cue" {
      var tail := name[|name| - 3..];
      forall i | 0 <= i < 3 ensures tail[i] != '.' {
        assert ToLower(tail)[i] == "cue"[i];
      }
      assert name[|name| - 1] == tail[2];
      assert '.' in name by { assert name[|name| - 4] == '.'; }
      assert e[1..] == tail;
    }
  }

  /** The cue sheet rewrite done just before a move whose destination is a cue file. */
  function PreMove(s: Storage, files: map<Path, Content>, m: FileMove, audioFileName: Path): (r: map<Path, Content>)
    ensures r.Keys == files.Keys
  {
    if IsCue(m.dest) && m.src in files then files[m.src := s.cueUpdateFileName(files[m.src], audioFileName)]
    else files
  }

  /** Some selected file is audio: the flag the placement reports. */
  predicate HasAudio(s: Storage, files: seq<Path>) {
    exists i :: 0 <= i < |files| && IsAudio(s, files[i])
  }

  lemma HasAudioStep(s: Storage, files: seq<Path>, i: nat)
    requires i < |files|
    ensures HasAudio(s, files[..i + 1]) == (HasAudio(s, files[..i]) || IsAudio(s, files[i]))
  {
    if HasAudio(s, files[..i]) {
      var k :| 0 <= k < i && IsAudio(s, files[..i][k]);
      assert files[..i + 1][k] == files[k];
    }
    if IsAudio(s, files[i]) {
      assert files[..i + 1][i] == files[i];
    }
  }

  /** The placement finds an audio file exactly when the listing holds an audio
      file whose name contains the product id. */
  lemma HasAudioIff(s: Storage, listing: seq<Path>, productId: string)
    ensures HasAudio(s, SortProductFiles(listing, productId, s.isFileTypeMatch)) <==>
      exists f :: f in listing && ContainsInsensitive(f.name, productId) && s.isFileTypeMatch(f)
  {
    var r := SortProductFiles(listing, productId, s.isFileTypeMatch);
    if f :| f in listing && ContainsInsensitive(f.name, productId) && s.isFileTypeMatch(f) {
      var i :| 0 <= i < |r| && r[i] == f;
    }
  }

  /** Where a moved file's content ends up: the cue sheet rewritten to name the
      audio file when its destination is a cue file, the content unchanged otherwise. */
  function LandedContent(s: Storage, files0: map<Path, Content>, m: FileMove, audioFileName: Path): Content
    requires m.src in files0
  {
    if IsCue(m.dest) then s.cueUpdateFileName(files0[m.src], audioFileName) else files0[m.src]
  }

  /** The first n planned moves have landed: each destination holds its file. */
  ghost predicate Landed(s: Storage, files0: map<Path, Content>, files: map<Path, Content>,
                         plan: seq<FileMove>, n: nat, audioFileName: Path)
    requires n <= |plan|
  {
    forall k :: 0 <= k < n ==>
      plan[k].src in files0 && plan[k].dest in files &&
      files[plan[k].dest] == LandedContent(s, files0, plan[k], audioFileName)
  }

  /** The files from index i on are still in place, untouched. */
  ghost predicate Pending(files0: map<Path, Content>, files: map<Path, Content>, sorted: seq<Path>, i: nat) {
    forall j :: i <= j < |sorted| ==> sorted[j] in files0 && sorted[j] in files && files[sorted[j]] == files0[sorted[j]]
  }

  /** No destination of the first i moves is a file still waiting to move. */
  ghost predicate Apart(plan: seq<FileMove>, sorted: seq<Path>, i: nat)
    requires i <= |plan|
  {
    forall k, j :: 0 <= k < i <= j < |sorted| ==> plan[k].dest != sorted[j]
  }

  /** One successful move keeps the placement loop's invariants. */
  lemma PlacementStep(s: Storage, files0: map<Path, Content>, files: map<Path, Content>, dirs: set<string>,
                      sorted: seq<Path>, plan: seq<FileMove>, i: nat, audioFileName: Path)
    requires NoDuplicates(sorted) && i < |sorted| == |plan|
    requires forall k :: 0 <= k < |plan| ==> plan[k].src == sorted[k]
    requires Landed(s, files0, files, plan, i, audioFileName) && Pending(files0, files, sorted, i) && Apart(plan, sorted, i)
    requires CanMove(PreMove(s, files, plan[i], audioFileName), dirs, plan[i].src, plan[i].dest)
    ensures var next := Moved(PreMove(s, files, plan[i], audioFileName), plan[i].src, plan[i].dest);
      Landed(s, files0, next, plan, i + 1, audioFileName) && Pending(files0, next, sorted, i + 1) && Apart(plan, sorted, i + 1)
  {
    var m := plan[i];
    var pre := PreMove(s, files, m, audioFileName);
    var next := Moved(pre, m.src, m.dest);
    assert m.src == sorted[i];
    assert m.src in files0 && files[m.src] == files0[m.src];
    assert pre[m.src] == LandedContent(s, files0, m, audioFileName);
    forall k | 0 <= k < i + 1
      ensures plan[k].src in files0 && plan[k].dest in next
      ensures next[plan[k].dest] == LandedContent(s, files0, plan[k], audioFileName)
    {
      if k < i {
        var d := plan[k].dest;
        assert d != m.src;
        assert d in files && d in pre;
        assert d != m.dest;
        assert next[d] == pre[d] == files[d];
      }
    }
    forall j | i + 1 <= j < |sorted|
      ensures sorted[j] in files0 && sorted[j] in next && next[sorted[j]] == files0[sorted[j]]
    {
      assert sorted[j] != m.src;
      assert sorted[j] in pre;
      assert sorted[j] != m.dest;
      assert next[sorted[j]] == pre[sorted[j]] == files[sorted[j]];
    }
    forall k, j | 0 <= k < i + 1 <= j < |sorted| ensures plan[k].dest != sorted[j] {
      if k == i {
        assert sorted[j] in pre;
      }
    }
  }

  /** getProductFilesSorted: lists the directory of the decrypted file and
      sorts the product's files, audio last. */
  method GetProductFilesSorted(fs: FileSystem, product: Book, outputAudioFilename: Path, isAudio: Path -> bool)
    returns (sorted: seq<Path>, ghost listing: seq<Path>)
    ensures NoDuplicates(listing)
    ensures forall p :: p in listing <==> p in fs.files && p.dir == outputAudioFilename.dir
    ensures sorted == SortProductFiles(listing, product.audibleProductId, isAudio)
    ensures NoDuplicates(sorted)
    ensures forall f :: f in sorted <==> f in fs.files && f.dir == outputAudioFilename.dir && ContainsInsensitive(f.name, product.audibleProductId)
  {
    var files := fs.EnumerateFiles(outputAudioFilename.dir);
    listing := files;
    sorted := SortProductFiles(files, product.audibleProductId, isAudio);
    SortedSelection(files, product.audibleProductId, isAudio);
  }

  /** What the placement loop leaves behind: the file map, how many moves
      completed, and whether a File.Move threw (ending the loop early). */
  datatype Placement = Placement(files: map<Path, Content>, done: nat, threw: bool)

  /** The placement loop run on a file map: each move first rewrites a cue
      sheet, then moves the file, and the first move that cannot be made stops
      the loop with the rewrite already done. */
  function RunMoves(s: Storage, dirs: set<string>, files: map<Path, Content>, plan: seq<FileMove>, audioFileName: Path)
    : (r: Placement)
    ensures r.done <= |plan|
    ensures r.threw <==> r.done < |plan|
    ensures r.threw ==> !CanMove(r.files, dirs, plan[r.done].src, plan[r.done].dest)
    decreases |plan|
  {
    if plan == [] then Placement(files, 0, false)
    else
      var m := plan[0];
      var pre := PreMove(s, files, m, audioFileName);
      if !CanMove(pre, dirs, m.src, m.dest) then
        Placement(pre, 0, true)
      else
        var rest := RunMoves(s, dirs, Moved(pre, m.src, m.dest), plan[1..], audioFileName);
        Placement(rest.files, rest.done + 1, rest.threw)
  }
  /** The loop from move i on, unfolded by one move. */
  lemma RunMovesStep(s: Storage, dirs: set<string>, files: map<Path, Content>, plan: seq<FileMove>, i: nat, audioFileName: Path)
    requires i < |plan|
    ensures var m := plan[i];
      var pre := PreMove(s, files, m, audioFileName);
      RunMoves(s, dirs, files, plan[i..], audioFileName) ==
        if !CanMove(pre, dirs, m.src, m.dest) then Placement(pre, 0, true)
        else
          var rest := RunMoves(s, dirs, Moved(pre, m.src, m.dest), plan[i + 1..], audioFileName);
          Placement(rest.files, rest.done + 1, rest.threw)
  {
    assert plan[i..][0] == plan[i];
    assert plan[i..][1..] == plan[i + 1..];
  }

  /** Running the loop from move i on, once the first i moves have landed,
      lands every further move that completes. */
  lemma {:induction false} RunMovesLandedFrom(s: Storage, dirs: set<string>, files0: map<Path, Content>,
                                             files: map<Path, Content>, sorted: seq<Path>, plan: seq<FileMove>,
                                             i: nat, audioFileName: Path)
    requires NoDuplicates(sorted) && i <= |sorted| == |plan|
    requires forall k :: 0 <= k < |plan| ==> plan[k].src == sorted[k]
    requires Landed(s, files0, files, plan, i, audioFileName) && Pending(files0, files, sorted, i) && Apart(plan, sorted, i)
    ensures var rest := RunMoves(s, dirs, files, plan[i..], audioFileName);
      i + rest.done <= |plan| && Landed(s, files0, rest.files, plan, i + rest.done, audioFileName)
    decreases |plan| - i
  {
    if i < |plan| {
      var m := plan[i];
      assert plan[i..][0] == m;
      var pre := PreMove(s, files, m, audioFileName);
      if CanMove(pre, dirs, m.src, m.dest) {
        PlacementStep(s, files0, files, dirs, sorted, plan, i, audioFileName);
        assert plan[i..][1..] == plan[i + 1..];
        RunMovesLandedFrom(s, dirs, files0, Moved(pre, m.src, m.dest), sorted, plan, i + 1, audioFileName);
      } else {
        forall k | 0 <= k < i
          ensures plan[k].dest in pre && pre[plan[k].dest] == files[plan[k].dest]
        {
          assert plan[k].dest != sorted[i];
        }
      }
    }
  }

  /** Every move the loop completes has landed: its destination holds the
      moved file's content, rewritten to name the audio file when the
      destination is a cue sheet. */
  lemma RunMovesLanded(s: Storage, product: Book, t: Target, dirs: set<string>, files0: map<Path, Content>, sorted: seq<Path>)
    requires NoDuplicates(sorted)
    requires forall f :: f in sorted ==> f in files0
    ensures var plan := PlanMoves(s, product, t, sorted);
      var run := RunMoves(s, dirs, files0, plan, t.audioFileName);
      forall k :: 0 <= k < run.done ==>
        plan[k].dest in run.files && run.files[plan[k].dest] == LandedContent(s, files0, plan[k], t.audioFileName)
  {
    var plan := PlanMoves(s, product, t, sorted);
    assert plan[0..] == plan;
    RunMovesLandedFrom(s, dirs, files0, files0, sorted, plan, 0, t.audioFileName);
  }

  /** Audio lands last: once an audio file has been moved, every non-audio
      file of the book has been moved before it. */
  lemma AudioLandsLast(s: Storage, product: Book, t: Target, dirs: set<string>, files0: map<Path, Content>, listing: seq<Path>)
    ensures var sorted := SortProductFiles(listing, product.audibleProductId, s.isFileTypeMatch);
      var plan := PlanMoves(s, product, t, sorted);
      var run := RunMoves(s, dirs, files0, plan, t.audioFileName);
      forall k, j :: 0 <= k < run.done && IsAudio(s, plan[k].src) && 0 <= j < |plan| && !IsAudio(s, plan[j].src) ==>
        j < k
  {
    var sorted := SortProductFiles(listing, product.audibleProductId, s.isFileTypeMatch);
    SortedAudioLast(listing, product.audibleProductId, s.isFileTypeMatch);
  }

  /** The flag the loop reports is true exactly when one of the planned moves
      is an audio file's, and every audio file is bound for the audio file name. */
  lemma {:induction false} PlanAudioMoves(s: Storage, product: Book, t: Target, sorted: seq<Path>)
    ensures HasAudio(s, sorted) <==> exists k :: 0 <= k < |sorted| && IsAudio(s, PlanMoves(s, product, t, sorted)[k].src)
    ensures var plan := PlanMoves(s, product, t, sorted);
      forall k :: 0 <= k < |plan| && IsAudio(s, plan[k].src) ==> plan[k].dest == t.audioFileName
  {
    var plan := PlanMoves(s, product, t, sorted);
    if HasAudio(s, sorted) {
      var k :| 0 <= k < |sorted| && IsAudio(s, sorted[k]);
      assert plan[k].src == sorted[k] && IsAudio(s, plan[k].src);
    }
    if k :| 0 <= k < |plan| && IsAudio(s, plan[k].src) {
      assert plan[k].src == sorted[k] && IsAudio(s, sorted[k]);
    }
  }

  /** Appending the planned moves to a trace adds an audio file's move exactly
      when one of the sorted files is audio. */
  lemma AudioMoveInTrace(s: Storage, before: seq<FileMove>, plan: seq<FileMove>, sorted: seq<Path>)
    requires |plan| == |sorted|
    requires forall k :: 0 <= k < |plan| ==> plan[k].src == sorted[k]
    ensures HasAudio(s, sorted) <==> exists k :: |before| <= k < |before + plan| && IsAudio(s, (before + plan)[k].src)
  {
    var trace := before + plan;
    if HasAudio(s, sorted) {
      var k :| 0 <= k < |sorted| && IsAudio(s, sorted[k]);
      assert trace[|before| + k] == plan[k];
    }
    if j :| |before| <= j < |trace| && IsAudio(s, trace[j].src) {
      assert trace[j] == plan[j - |before|];
      assert IsAudio(s, sorted[j - |before|]);
    }
  }

  /** When the loop runs to the end having moved an audio file, the final
      audio file exists. */
  lemma AudioFileLanded(s: Storage, product: Book, t: Target, dirs: set<string>, files0: map<Path, Content>, sorted: seq<Path>)
    requires NoDuplicates(sorted)
    requires forall f :: f in sorted ==> f in files0
    ensures var run := RunMoves(s, dirs, files0, PlanMoves(s, product, t, sorted), t.audioFileName);
      !run.threw && HasAudio(s, sorted) ==> t.audioFileName in run.files
  {
    var plan := PlanMoves(s, product, t, sorted);
    var run := RunMoves(s, dirs, files0, plan, t.audioFileName);
    if !run.threw && HasAudio(s, sorted) {
      PlanAudioMoves(s, product, t, sorted);
      var k :| 0 <= k < |plan| && IsAudio(s, plan[k].src);
      RunMovesLanded(s, product, t, dirs, files0, sorted);
      assert plan[k].dest in run.files;
    }
  }

  /** A move into a destination that already holds a file is refused, and a
      destination no move takes a file from stays taken, so the loop never
      gets past such a move. */
  lemma {:induction false} TakenDestinationStops(s: Storage, dirs: set<string>, files: map<Path, Content>,
                                                 plan: seq<FileMove>, d: Path, j: nat, audioFileName: Path)
    requires d in files && j < |plan| && plan[j].dest == d
    requires forall i :: 0 <= i < |plan| ==> plan[i].src != d
    ensures RunMoves(s, dirs, files, plan, audioFileName).done <= j
    decreases |plan|
  {
    var m := plan[0];
    var pre := PreMove(s, files, m, audioFileName);
    if CanMove(pre, dirs, m.src, m.dest) {
      assert j > 0;
      TakenDestinationStops(s, dirs, Moved(pre, m.src, m.dest), plan[1..], d, j - 1, audioFileName);
    }
  }

  /** Two moves into the same destination: the loop never gets past the second. */
  lemma {:induction false} SharedDestinationStops(s: Storage, dirs: set<string>, files: map<Path, Content>,
                                                  plan: seq<FileMove>, k: nat, j: nat, audioFileName: Path)
    requires k < j < |plan| && plan[k].dest == plan[j].dest
    requires forall i :: 0 <= i < |plan| ==> plan[i].src != plan[j].dest
    ensures RunMoves(s, dirs, files, plan, audioFileName).done <= j
    decreases |plan|
  {
    var m := plan[0];
    var pre := PreMove(s, files, m, audioFileName);
    if CanMove(pre, dirs, m.src, m.dest) {
      var next := Moved(pre, m.src, m.dest);
      if k == 0 {
        TakenDestinationStops(s, dirs, next, plan[1..], plan[j].dest, j - 1, audioFileName);
      } else {
        SharedDestinationStops(s, dirs, next, plan[1..], k - 1, j - 1, audioFileName);
      }
    }
  }

  /** Every audio file is moved to the one audio file name, which File.Move
      will not overwrite: with a second audio file among the book's files the
      loop throws at that file, before the flag can be reported. */
  lemma SecondAudioFileThrows(s: Storage, product: Book, t: Target, dirs: set<string>, files0: map<Path, Content>, sorted: seq<Path>)
    requires t.audioFileName !in sorted
    ensures var run := RunMoves(s, dirs, files0, PlanMoves(s, product, t, sorted), t.audioFileName);
      forall k, j :: 0 <= k < j < |sorted| && IsAudio(s, sorted[k]) && IsAudio(s, sorted[j]) ==>
        run.threw && run.done <= j
  {
    var plan := PlanMoves(s, product, t, sorted);
    forall k, j | 0 <= k < j < |sorted| && IsAudio(s, sorted[k]) && IsAudio(s, sorted[j])
      ensures RunMoves(s, dirs, files0, plan, t.audioFileName).done <= j
    {
      forall i | 0 <= i < |plan| ensures plan[i].src != plan[j].dest {
        assert plan[i].src == sorted[i];
      }
      SharedDestinationStops(s, dirs, files0, plan, k, j, t.audioFileName);
    }
  }

  /** One step of the placement loop: a file bound for a cue destination is
      first rewritten to name the audio file, then File.Move is called. */
  method PlaceFile(s: Storage, fs: FileSystem, f: Path, dest: Path, audioFileName: Path) returns (ok: bool)
    modifies fs
    ensures var pre := PreMove(s, old(fs.files), FileMove(f, dest), audioFileName);
      (ok <==> CanMove(pre, old(fs.dirs), f, dest)) &&
      fs.files == (if ok then Moved(pre, f, dest) else pre) &&
      fs.moves == (if ok then old(fs.moves) + [FileMove(f, dest)] else old(fs.moves)) &&
      fs.dirs == old(fs.dirs)
  {
    if IsCue(dest) && f in fs.files {
      fs.WriteFile(f, CueUpdated(s, fs.files[f], audioFileName));
    }
    ok := fs.Move(f, dest);
  }

  /** The placement loop over the sorted files: moves them in order and stops
      at the first File.Move that fails. Reports whether an audio file moved. */
  method PlaceAll(s: Storage, product: Book, t: Target, sorted: seq<Path>, fs: FileSystem)
    returns (r: Outcome<bool>)
    modifies fs
    ensures var plan := PlanMoves(s, product, t, sorted);
      var run := RunMoves(s, old(fs.dirs), old(fs.files), plan, t.audioFileName);
      fs.files == run.files && fs.dirs == old(fs.dirs) &&
      fs.moves == old(fs.moves) + plan[..run.done] &&
      (r.Thrown? <==> run.threw) &&
      (r.Thrown? ==> r.message == MoveFailed) &&
      (r.Returned? ==> r.value == HasAudio(s, sorted))
    ensures r.Returned? ==>
      (r.value <==> exists k :: |old(fs.moves)| <= k < |fs.moves| && IsAudio(s, fs.moves[k].src))
  {
    ghost var plan := PlanMoves(s, product, t, sorted);
    ghost var run := RunMoves(s, fs.dirs, fs.files, plan, t.audioFileName);
    var movedAudioFile := false;
    var i := 0;
    while i < |sorted|
      invariant 0 <= i <= |sorted|
      invariant fs.dirs == old(fs.dirs)
      invariant fs.moves == old(fs.moves) + plan[..i]
      invariant var rest := RunMoves(s, fs.dirs, fs.files, plan[i..], t.audioFileName);
        run == Placement(rest.files, i + rest.done, rest.threw)
      invariant movedAudioFile == HasAudio(s, sorted[..i])
    {
      var f := sorted[i];
      var dest := Destination(s, product, t, f);
      PrefixStep(old(fs.moves), plan, i);
      RunMovesStep(s, fs.dirs, fs.files, plan, i, t.audioFileName);
      var ok := PlaceFile(s, fs, f, dest, t.audioFileName);
      if !ok {
        r := Thrown(MoveFailed);
        return;
      }
      HasAudioStep(s, sorted, i);
      movedAudioFile := movedAudioFile || IsAudio(s, f);
      i := i + 1;
    }
    assert sorted[..|sorted|] == sorted;
    assert plan[..|plan|] == plan;
    AudioMoveInTrace(s, old(fs.moves), plan, sorted);
    r := Returned(movedAudioFile);
  }

  /** MoveFilesToBooksDir. Creates the books directory, then moves the sorted
      files one at a time, rewriting a cue sheet just before its move. Returns
      the books directory and whether an audio file was moved, or the
      exception of the first File.Move that fails (nothing is rolled back). */
  method MoveFilesToBooksDir(s: Storage, product: Book, outputAudioFilename: Path, fs: FileSystem)
    returns (r: Outcome<(string, bool)>, ghost listing: seq<Path>)
    modifies fs
    ensures NoDuplicates(listing)
    ensures forall p :: p in listing <==> p in old(fs.files) && p.dir == outputAudioFilename.dir
    ensures var t := TargetFor(s, product, outputAudioFilename);
      var sorted := SortProductFiles(listing, product.audibleProductId, s.isFileTypeMatch);
      var plan := PlanMoves(s, product, t, sorted);
      var run := RunMoves(s, old(fs.dirs) + {t.destinationDir}, old(fs.files), plan, t.audioFileName);
      fs.files == run.files && fs.dirs == old(fs.dirs) + {t.destinationDir} &&
      fs.moves == old(fs.moves) + plan[..run.done] &&
      (r.Thrown? <==> run.threw) &&
      (r.Thrown? ==> r.message == MoveFailed) &&
      (r.Returned? ==> r.value == (t.destinationDir, HasAudio(s, sorted))) &&
      (r.Returned? && r.value.1 ==> t.audioFileName in fs.files)
    ensures r.Returned? ==>
      (r.value.1 <==> exists k :: |old(fs.moves)| <= k < |fs.moves| && IsAudio(s, fs.moves[k].src))
  {
    var t := TargetFor(s, product, outputAudioFilename);
    fs.CreateDirectory(t.destinationDir);
    var sortedFiles;
    sortedFiles, listing := GetProductFilesSorted(fs, product, outputAudioFilename, s.isFileTypeMatch);
    ghost var files0 := fs.files;
    var placed := PlaceAll(s, product, t, sortedFiles, fs);
    ghost var plan := PlanMoves(s, product, t, sortedFiles);
    PlanAudioMoves(s, product, t, sortedFiles);
    AudioFileLanded(s, product, t, fs.dirs, files0, sortedFiles);
    match placed
    case Returned(movedAudioFile) =>
      r := Returned((t.destinationDir, movedAudioFile));
    case Thrown(message) =>
      r := Thrown(message);
  }
}
