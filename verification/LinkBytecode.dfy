/**
  Writing library addresses into the placeholders of unlinked bytecode.  The bytecode is a string
  of hexadecimal digits after "0x", so byte `i` occupies the two characters from 2 + 2 * i.
 */
module LinkBytecode {

  datatype Fixup = Fixup(start: nat, length: nat)

  /** The placeholders of one library in one file, and all libraries of one file, in iteration order. */
  datatype LibraryReferences = LibraryReferences(name: string, fixups: seq<Fixup>)
  datatype FileReferences = FileReferences(fileName: string, libraries: seq<LibraryReferences>)

  /** One address to be written at one placeholder. */
  datatype Patch = Patch(fixup: Fixup, address: string)

  /** The first `length` characters, or all there are. */
  function Prefix(s: string, length: nat): string {
    if length <= |s| then s[..length] else s
  }

  /** The characters from `start` on, or none. */
  function Suffix(s: string, start: nat): string {
    if start <= |s| then s[start..] else ""
  }

  function Splice(bytecode: string, p: Patch): string {
    Prefix(bytecode, 2 + p.fixup.start * 2) + Suffix(p.address, 2)
    + Suffix(bytecode, 2 + (p.fixup.start + p.fixup.length) * 2)
  }

  /** All patches, one after the other. */
  function Apply(bytecode: string, patches: seq<Patch>): string {
    if patches == [] then bytecode
    else Splice(Apply(bytecode, patches[..|patches| - 1]), patches[|patches| - 1])
  }

  // ---------- which patches a link applies ----------

  function FixupPatches(fixups: seq<Fixup>, address: string): seq<Patch> {
    seq(|fixups|, i requires 0 <= i < |fixups| => Patch(fixups[i], address))
  }

  function LibraryPatches(reference: LibraryReferences, libraries: map<string, string>): seq<Patch> {
    if reference.name in libraries then FixupPatches(reference.fixups, libraries[reference.name]) else []
  }

  function FilePatches(references: seq<LibraryReferences>, libraries: map<string, string>): seq<Patch> {
    if references == [] then []
    else FilePatches(references[..|references| - 1], libraries)
         + LibraryPatches(references[|references| - 1], libraries)
  }

  function Patches(files: seq<FileReferences>, libraries: map<string, string>): seq<Patch> {
    if files == [] then []
    else Patches(files[..|files| - 1], libraries) + FilePatches(files[|files| - 1].libraries, libraries)
  }

  lemma ApplyOneMore(bytecode: string, patches: seq<Patch>, p: Patch)
    ensures Apply(bytecode, patches + [p]) == Splice(Apply(bytecode, patches), p)
  {
    assert (patches + [p])[..|patches|] == patches;
  }

  lemma FixupStep(bytecode: string, before: seq<Patch>, fixups: seq<Fixup>, i: nat, address: string)
    requires i < |fixups|
    ensures Apply(bytecode, before + FixupPatches(fixups[..i + 1], address))
      == Splice(Apply(bytecode, before + FixupPatches(fixups[..i], address)), Patch(fixups[i], address))
  {
    hide Splice, Apply;
    var done := before + FixupPatches(fixups[..i], address);
    assert before + FixupPatches(fixups[..i + 1], address) == done + [Patch(fixups[i], address)];
    ApplyOneMore(bytecode, done, Patch(fixups[i], address));
  }

  lemma LibraryStep(before: seq<Patch>, references: seq<LibraryReferences>, l: nat, libraries: map<string, string>)
    requires l < |references|
    ensures before + FilePatches(references[..l + 1], libraries)
      == (before + FilePatches(references[..l], libraries)) + LibraryPatches(references[l], libraries)
  {
    hide LibraryPatches;
    assert references[..l + 1][..l] == references[..l];
  }

  lemma FileStep(files: seq<FileReferences>, f: nat, libraries: map<string, string>)
    requires f < |files|
    ensures Patches(files[..f + 1], libraries)
      == Patches(files[..f], libraries) + FilePatches(files[f].libraries, libraries)
  {
    hide FilePatches;
    assert files[..f + 1][..f] == files[..f];
  }

  lemma NothingYet(before: seq<Patch>, fixups: seq<Fixup>, references: seq<LibraryReferences>,
                   files: seq<FileReferences>, address: string, libraries: map<string, string>)
    ensures before + FixupPatches(fixups[..0], address) == before
    ensures before + FilePatches(references[..0], libraries) == before
    ensures before + [] == before
    ensures Patches(files[..0], libraries) == []
  {
  }

  /** The three nested loops over files, libraries and placeholders apply exactly the patches of the linked libraries. */
  method Link(artifactBytecode: string, linkReferences: seq<FileReferences>, libraries: map<string, string>)
      returns (bytecode: string)
    ensures bytecode == Apply(artifactBytecode, Patches(linkReferences, libraries))
  {
    hide Patches, FilePatches, FixupPatches, Prefix, Suffix;
    bytecode := artifactBytecode;
    NothingYet([], [], [], linkReferences, "", libraries);
    for f := 0 to |linkReferences|
      invariant bytecode == Apply(artifactBytecode, Patches(linkReferences[..f], libraries))
    {
      ghost var done := Patches(linkReferences[..f], libraries);
      var fileReferences := linkReferences[f].libraries;
      NothingYet(done, [], fileReferences, [], "", libraries);
      for l := 0 to |fileReferences|
        invariant bytecode == Apply(artifactBytecode, done + FilePatches(fileReferences[..l], libraries))
      {
        ghost var doneHere := done + FilePatches(fileReferences[..l], libraries);
        LibraryStep(done, fileReferences, l, libraries);
        NothingYet(doneHere, fileReferences[l].fixups, [], [], "", libraries);
        if fileReferences[l].name !in libraries {
          continue;
        }
        var addr := libraries[fileReferences[l].name];
        var fixups := fileReferences[l].fixups;
        NothingYet(doneHere, fixups, [], [], addr, libraries);
        for i := 0 to |fixups|
          invariant bytecode == Apply(artifactBytecode, doneHere + FixupPatches(fixups[..i], addr))
        {
          var fixup := fixups[i];
          FixupStep(artifactBytecode, doneHere, fixups, i, addr);
          bytecode := Prefix(bytecode, 2 + fixup.start * 2) + Suffix(addr, 2) +
          Suffix(bytecode, 2 + (fixup.start + fixup.length) * 2);
        }
        assert fixups[..|fixups|] == fixups;
      }
      assert fileReferences[..|fileReferences|] == fileReferences;
      FileStep(linkReferences, f, libraries);
    }
    assert linkReferences[..|linkReferences|] == linkReferences;
  }

  // ---------- what patches do to the text ----------

  /** The placeholder lies inside the bytecode and the address is exactly as long. */
  predicate Fits(length: nat, p: Patch) {
    && 2 + (p.fixup.start + p.fixup.length) * 2 <= length
    && |p.address| == 2 + p.fixup.length * 2
  }

  predicate AllFit(length: nat, patches: seq<Patch>) {
    forall p :: p in patches ==> Fits(length, p)
  }

  predicate Covers(p: Patch, k: nat) {
    2 + p.fixup.start * 2 <= k < 2 + (p.fixup.start + p.fixup.length) * 2
  }

  /** The character that a patch writes at a position it covers. */
  function CharAt(p: Patch, k: nat): char
    requires |p.address| == 2 + p.fixup.length * 2 && Covers(p, k)
  {
    p.address[k - p.fixup.start * 2]
  }

  lemma SpliceInPlace(bytecode: string, p: Patch)
    requires Fits(|bytecode|, p)
    ensures |Splice(bytecode, p)| == |bytecode|
    ensures forall k :: 0 <= k < |bytecode| ==>
      Splice(bytecode, p)[k] == if Covers(p, k) then CharAt(p, k) else bytecode[k]
  {
  }

  /** An in-range placeholder keeps the length of the bytecode if and only if the address has its length. */
  lemma SpliceKeepsLengthIff(bytecode: string, p: Patch)
    requires 2 + (p.fixup.start + p.fixup.length) * 2 <= |bytecode| && |p.address| >= 2
    ensures |Splice(bytecode, p)| == |bytecode| <==> |p.address| == 2 + p.fixup.length * 2
  {
  }

  /** The character a position ends up with: the last patch that covers it decides. */
  function Written(bytecode: string, patches: seq<Patch>, k: nat): char
    requires k < |bytecode| && AllFit(|bytecode|, patches)
  {
    if patches == [] then bytecode[k]
    else
      var p := patches[|patches| - 1];
      assert p in patches;
      if Covers(p, k) then CharAt(p, k) else Written(bytecode, patches[..|patches| - 1], k)
  }

  lemma {:induction false} ApplyIsWritten(bytecode: string, patches: seq<Patch>)
    requires AllFit(|bytecode|, patches)
    ensures |Apply(bytecode, patches)| == |bytecode|
    ensures forall k :: 0 <= k < |bytecode| ==> Apply(bytecode, patches)[k] == Written(bytecode, patches, k)
  {
    if patches != [] {
      var front, p := patches[..|patches| - 1], patches[|patches| - 1];
      ApplyIsWritten(bytecode, front);
      SpliceInPlace(Apply(bytecode, front), p);
    }
  }

  lemma {:induction false} WrittenCases(bytecode: string, patches: seq<Patch>, k: nat)
    requires k < |bytecode| && AllFit(|bytecode|, patches)
    ensures (exists p :: p in patches && Covers(p, k) && Written(bytecode, patches, k) == CharAt(p, k))
      || ((forall p :: p in patches ==> !Covers(p, k)) && Written(bytecode, patches, k) == bytecode[k])
  {
    if patches != [] {
      var front, p := patches[..|patches| - 1], patches[|patches| - 1];
      assert p in patches;
      if !Covers(p, k) {
        WrittenCases(bytecode, front, k);
        assert forall q :: q in patches ==> q in front || q == p;
        assert forall q :: q in front ==> q in patches;
      }
    }
  }

  /** Wherever two patches overlap they write the same character; disjoint placeholders always do. */
  ghost predicate Agree(length: nat, patches: seq<Patch>)
    requires AllFit(length, patches)
  {
    forall p, q, k: nat :: p in patches && q in patches && Covers(p, k) && Covers(q, k) ==> CharAt(p, k) == CharAt(q, k)
  }

  lemma PlaceholderWritten(bytecode: string, patches: seq<Patch>, p: Patch)
    requires AllFit(|bytecode|, patches) && Agree(|bytecode|, patches) && p in patches
    ensures |Apply(bytecode, patches)| == |bytecode| && Fits(|bytecode|, p)
    ensures Apply(bytecode, patches)[2 + p.fixup.start * 2..2 + (p.fixup.start + p.fixup.length) * 2] == p.address[2..]
  {
    hide Apply, Written;
    ApplyIsWritten(bytecode, patches);
    var linked, from, to := Apply(bytecode, patches), 2 + p.fixup.start * 2, 2 + (p.fixup.start + p.fixup.length) * 2;
    forall k | from <= k < to ensures linked[k] == p.address[k - p.fixup.start * 2] {
      assert Covers(p, k);
      WrittenCases(bytecode, patches, k);
    }
    SameSlice(linked, from, to, p.address, 2);
  }

  lemma SameSlice(s: string, from: nat, to: nat, t: string, at: nat)
    requires from <= to <= |s| && at <= |t| && |t| - at == to - from
    requires forall k :: from <= k < to ==> s[k] == t[k - from + at]
    ensures s[from..to] == t[at..]
  {
    assert forall i :: 0 <= i < to - from ==> s[from..to][i] == s[from + i];
  }

  /** Linking keeps the length, writes the right address at every placeholder, and touches nothing else. */
  lemma LinkWritesAddresses(bytecode: string, patches: seq<Patch>)
    requires AllFit(|bytecode|, patches) && Agree(|bytecode|, patches)
    ensures var linked := Apply(bytecode, patches);
      && |linked| == |bytecode|
      && (forall p :: p in patches ==>
            linked[2 + p.fixup.start * 2..2 + (p.fixup.start + p.fixup.length) * 2] == p.address[2..])
      && (forall k :: 0 <= k < |bytecode| && (forall p :: p in patches ==> !Covers(p, k)) ==> linked[k] == bytecode[k])
  {
    hide Apply, Written, Covers, Agree;
    ApplyIsWritten(bytecode, patches);
    var linked := Apply(bytecode, patches);
    forall k | 0 <= k < |bytecode| && (forall p :: p in patches ==> !Covers(p, k)) ensures linked[k] == bytecode[k] {
      WrittenCases(bytecode, patches, k);
    }
    forall p | p in patches
      ensures linked[2 + p.fixup.start * 2..2 + (p.fixup.start + p.fixup.length) * 2] == p.address[2..]
    {
      PlaceholderWritten(bytecode, patches, p);
    }
  }

  // ---------- order and staging ----------

  ghost predicate SamePatches(ps: seq<Patch>, qs: seq<Patch>) {
    forall p :: p in ps <==> p in qs
  }

  /** Patches that agree give the same text in whatever order and however often they are applied. */
  lemma OrderDoesNotMatter(bytecode: string, ps: seq<Patch>, qs: seq<Patch>)
    requires SamePatches(ps, qs)
    requires AllFit(|bytecode|, ps) && Agree(|bytecode|, ps)
    ensures Apply(bytecode, ps) == Apply(bytecode, qs)
  {
    assert AllFit(|bytecode|, qs);
    ApplyIsWritten(bytecode, ps);
    ApplyIsWritten(bytecode, qs);
    forall k | 0 <= k < |bytecode| ensures Written(bytecode, ps, k) == Written(bytecode, qs, k) {
      WrittenCases(bytecode, ps, k);
      WrittenCases(bytecode, qs, k);
    }
  }

  /** The same patches in the same numbers, in some order. */
  ghost predicate Reordered(ps: seq<Patch>, qs: seq<Patch>) {
    multiset(ps) == multiset(qs)
  }

  lemma ReorderedIsSame(ps: seq<Patch>, qs: seq<Patch>)
    requires Reordered(ps, qs)
    ensures SamePatches(ps, qs)
  {
    forall p ensures p in ps <==> p in qs {
      assert p in ps <==> p in multiset(ps);
      assert p in qs <==> p in multiset(qs);
    }
  }

  /** An order in which the patch comes last. */
  lemma MovedLast(patches: seq<Patch>, p: Patch) returns (qs: seq<Patch>)
    requires p in patches
    ensures Reordered(patches, qs) && qs != [] && qs[|qs| - 1] == p
  {
    var i :| 0 <= i < |patches| && patches[i] == p;
    var front, back := patches[..i], patches[i + 1..];
    assert patches == front + [p] + back;
    qs := front + back + [p];
  }

  lemma LastPatchWins(bytecode: string, patches: seq<Patch>, k: nat)
    requires AllFit(|bytecode|, patches) && patches != [] && Covers(patches[|patches| - 1], k)
    ensures k < |Apply(bytecode, patches)|
    ensures Fits(|bytecode|, patches[|patches| - 1])
    ensures Apply(bytecode, patches)[k] == CharAt(patches[|patches| - 1], k)
  {
    assert patches[|patches| - 1] in patches;
    ApplyIsWritten(bytecode, patches);
  }

  /** Where two patches disagree, two orders of the same patches give different texts. */
  lemma DisagreementShows(bytecode: string, patches: seq<Patch>, p: Patch, q: Patch, k: nat)
    returns (ps: seq<Patch>, qs: seq<Patch>)
    requires AllFit(|bytecode|, patches)
    requires p in patches && q in patches && Covers(p, k) && Covers(q, k) && CharAt(p, k) != CharAt(q, k)
    ensures Reordered(patches, ps) && Reordered(patches, qs)
    ensures Apply(bytecode, ps) != Apply(bytecode, qs)
  {
    hide Apply, Covers, Fits;
    ps := MovedLast(patches, p);
    qs := MovedLast(patches, q);
    ReorderedIsSame(patches, ps);
    ReorderedIsSame(patches, qs);
    LastPatchWins(bytecode, ps, k);
    LastPatchWins(bytecode, qs, k);
  }

  /** The order of linking is irrelevant if and only if the patches agree wherever they overlap. */
  lemma OrderIrrelevantIff(bytecode: string, patches: seq<Patch>)
    requires AllFit(|bytecode|, patches)
    ensures Agree(|bytecode|, patches)
      <==> forall qs :: Reordered(patches, qs) ==> Apply(bytecode, qs) == Apply(bytecode, patches)
  {
    hide Apply, Covers, SamePatches, Reordered;
    if Agree(|bytecode|, patches) {
      forall qs | Reordered(patches, qs) ensures Apply(bytecode, qs) == Apply(bytecode, patches) {
        ReorderedIsSame(patches, qs);
        OrderDoesNotMatter(bytecode, patches, qs);
      }
    } else {
      var p, q, k: nat :| p in patches && q in patches && Covers(p, k) && Covers(q, k) && CharAt(p, k) != CharAt(q, k);
      var ps, qs := DisagreementShows(bytecode, patches, p, q, k);
    }
  }

  lemma {:induction false} ApplyInStages(bytecode: string, ps: seq<Patch>, qs: seq<Patch>)
    ensures Apply(Apply(bytecode, ps), qs) == Apply(bytecode, ps + qs)
  {
    hide Splice;
    if qs == [] {
      assert ps + qs == ps;
    } else {
      var front, q := qs[..|qs| - 1], qs[|qs| - 1];
      ApplyInStages(bytecode, ps, front);
      assert (ps + qs)[..|ps + qs| - 1] == ps + front;
    }
  }

  // ---------- a link, placeholder by placeholder ----------

  /** A placeholder, by the positions of its file, of its library in the file, and of its own among the library's. */
  datatype Place = Place(file: nat, library: nat, fixup: nat)

  predicate Exists(files: seq<FileReferences>, x: Place) {
    && x.file < |files| && x.library < |files[x.file].libraries|
    && x.fixup < |files[x.file].libraries[x.library].fixups|
  }

  function NameAt(files: seq<FileReferences>, x: Place): string
    requires Exists(files, x)
  {
    files[x.file].libraries[x.library].name
  }

  function FixupAt(files: seq<FileReferences>, x: Place): Fixup
    requires Exists(files, x)
  {
    files[x.file].libraries[x.library].fixups[x.fixup]
  }

  /** The placeholder exists, and its library is among those that are linked. */
  predicate Linked(files: seq<FileReferences>, libraries: map<string, string>, x: Place) {
    Exists(files, x) && NameAt(files, x) in libraries
  }

  function PatchAt(files: seq<FileReferences>, libraries: map<string, string>, x: Place): Patch
    requires Linked(files, libraries, x)
  {
    Patch(FixupAt(files, x), libraries[NameAt(files, x)])
  }

  lemma {:induction false} FilePatchIff(references: seq<LibraryReferences>, libraries: map<string, string>, p: Patch)
    ensures p in FilePatches(references, libraries) <==> exists l :: 0 <= l < |references| && p in LibraryPatches(references[l], libraries)
  {
    hide LibraryPatches;
    if references != [] {
      var k := |references| - 1;
      FilePatchIff(references[..k], libraries, p);
      if p in FilePatches(references[..k], libraries) {
        var l :| 0 <= l < k && p in LibraryPatches(references[..k][l], libraries);
        assert references[l] == references[..k][l];
      }
      if l :| 0 <= l < |references| && p in LibraryPatches(references[l], libraries) {
        if l < k {
          assert references[..k][l] == references[l];
        }
      }
    }
  }

  lemma LibraryPatchIff(reference: LibraryReferences, libraries: map<string, string>, p: Patch)
    ensures p in LibraryPatches(reference, libraries)
      <==> reference.name in libraries
           && exists i :: 0 <= i < |reference.fixups| && p == Patch(reference.fixups[i], libraries[reference.name])
  {
    if reference.name in libraries {
      var patches := FixupPatches(reference.fixups, libraries[reference.name]);
      if i :| 0 <= i < |reference.fixups| && p == Patch(reference.fixups[i], libraries[reference.name]) {
        assert patches[i] == p;
      }
    }
  }

  ghost predicate Placed(files: seq<FileReferences>, libraries: map<string, string>, p: Patch) {
    exists x :: Linked(files, libraries, x) && PatchAt(files, libraries, x) == p
  }

  /** The placeholders of one more file. */
  lemma PlacedOneMore(files: seq<FileReferences>, k: nat, libraries: map<string, string>, p: Patch)
    requires |files| == k + 1
    ensures Placed(files, libraries, p) <==> Placed(files[..k], libraries, p) || p in FilePatches(files[k].libraries, libraries)
  {
    hide FilePatches, LibraryPatches;
    FilePatchIff(files[k].libraries, libraries, p);
    if Placed(files[..k], libraries, p) {
      var x :| Linked(files[..k], libraries, x) && PatchAt(files[..k], libraries, x) == p;
      assert Linked(files, libraries, x) && PatchAt(files, libraries, x) == p;
    }
    if p in FilePatches(files[k].libraries, libraries) {
      var l: nat :| l < |files[k].libraries| && p in LibraryPatches(files[k].libraries[l], libraries);
      LibraryPatchIff(files[k].libraries[l], libraries, p);
      var i: nat :| i < |files[k].libraries[l].fixups| && p == Patch(files[k].libraries[l].fixups[i], libraries[files[k].libraries[l].name]);
      assert Linked(files, libraries, Place(k, l, i)) && PatchAt(files, libraries, Place(k, l, i)) == p;
    }
    if Placed(files, libraries, p) {
      var x :| Linked(files, libraries, x) && PatchAt(files, libraries, x) == p;
      if x.file < k {
        assert Linked(files[..k], libraries, x) && PatchAt(files[..k], libraries, x) == p;
      } else {
        LibraryPatchIff(files[k].libraries[x.library], libraries, p);
      }
    }
  }

  /** A link applies a patch if and only if it is the address of a linked library at one of that library's placeholders. */
  lemma {:induction false} PatchIffPlaced(files: seq<FileReferences>, libraries: map<string, string>, p: Patch)
    ensures p in Patches(files, libraries) <==> exists x :: Linked(files, libraries, x) && PatchAt(files, libraries, x) == p
  {
    hide FilePatches;
    if files != [] {
      var k := |files| - 1;
      PatchIffPlaced(files[..k], libraries, p);
      PlacedOneMore(files, k, libraries, p);
    }
  }

  lemma PlacedIsPatch(files: seq<FileReferences>, libraries: map<string, string>, x: Place)
    requires Linked(files, libraries, x)
    ensures PatchAt(files, libraries, x) in Patches(files, libraries)
  {
    PatchIffPlaced(files, libraries, PatchAt(files, libraries, x));
  }

  /** Every linked placeholder lies inside the bytecode, and the address for it is as long. */
  ghost predicate PlacesFit(length: nat, files: seq<FileReferences>, libraries: map<string, string>) {
    forall x :: Linked(files, libraries, x) ==> Fits(length, PatchAt(files, libraries, x))
  }

  /** No two placeholders of linked libraries share a character. */
  ghost predicate PlacesDisjoint(files: seq<FileReferences>, libraries: map<string, string>) {
    forall x, y, k: nat | Linked(files, libraries, x) && Linked(files, libraries, y) ::
      Covers(PatchAt(files, libraries, x), k) && Covers(PatchAt(files, libraries, y), k) ==> x == y
  }

  lemma PlacesAgree(length: nat, files: seq<FileReferences>, libraries: map<string, string>)
    requires PlacesFit(length, files, libraries) && PlacesDisjoint(files, libraries)
    ensures AllFit(length, Patches(files, libraries)) && Agree(length, Patches(files, libraries))
  {
    hide Covers, Patches, Fits;
    var patches := Patches(files, libraries);
    forall p | p in patches ensures Fits(length, p) {
      PatchIffPlaced(files, libraries, p);
    }
    forall p, q, k: nat | p in patches && q in patches && Covers(p, k) && Covers(q, k)
      ensures p == q
    {
      PatchIffPlaced(files, libraries, p);
      PatchIffPlaced(files, libraries, q);
    }
  }

  /** Linking some libraries and then others applies the patches of both. */
  lemma PatchesOfBoth(files: seq<FileReferences>, l1: map<string, string>, l2: map<string, string>, p: Patch)
    requires l1.Keys !! l2.Keys
    ensures p in Patches(files, l1 + l2) <==> p in Patches(files, l1) || p in Patches(files, l2)
  {
    hide Patches;
    PatchIffPlaced(files, l1 + l2, p);
    PatchIffPlaced(files, l1, p);
    PatchIffPlaced(files, l2, p);
    if p in Patches(files, l1 + l2) {
      var x :| Linked(files, l1 + l2, x) && PatchAt(files, l1 + l2, x) == p;
      assert Linked(files, l1, x) || Linked(files, l2, x);
    }
    if x :| Linked(files, l1, x) && PatchAt(files, l1, x) == p {
      assert Linked(files, l1 + l2, x);
    }
    if x :| Linked(files, l2, x) && PatchAt(files, l2, x) == p {
      assert Linked(files, l1 + l2, x);
    }
  }

  /**
    Linking into disjoint placeholders: the length is kept, every placeholder of every linked library in every
    file holds that library's address, every character outside of them is unchanged, and no order of the
    placeholders matters.
   */
  lemma LinkIntoDisjointPlaceholders(bytecode: string, files: seq<FileReferences>, libraries: map<string, string>)
    requires PlacesFit(|bytecode|, files, libraries) && PlacesDisjoint(files, libraries)
    ensures var linked := Apply(bytecode, Patches(files, libraries));
      && |linked| == |bytecode|
      && (forall x :: Linked(files, libraries, x) ==>
            var fixup := FixupAt(files, x);
            && 2 + (fixup.start + fixup.length) * 2 <= |linked| && 2 <= |libraries[NameAt(files, x)]|
            && linked[2 + fixup.start * 2..2 + (fixup.start + fixup.length) * 2] == libraries[NameAt(files, x)][2..])
      && (forall k: nat :: k < |bytecode|
                           && (forall x :: Linked(files, libraries, x) ==> !Covers(PatchAt(files, libraries, x), k))
                           ==> linked[k] == bytecode[k])
      && (forall qs :: Reordered(Patches(files, libraries), qs) ==> Apply(bytecode, qs) == linked)
  {
    hide Apply, Covers, Patches, Agree, Reordered, PlacesDisjoint;
    var patches := Patches(files, libraries);
    PlacesAgree(|bytecode|, files, libraries);
    LinkWritesAddresses(bytecode, patches);
    OrderIrrelevantIff(bytecode, patches);
    forall x | Linked(files, libraries, x) ensures PatchAt(files, libraries, x) in patches && Fits(|bytecode|, PatchAt(files, libraries, x)) {
      PlacedIsPatch(files, libraries, x);
    }
    forall k: nat | k < |bytecode| && (forall x :: Linked(files, libraries, x) ==> !Covers(PatchAt(files, libraries, x), k))
      ensures Apply(bytecode, patches)[k] == bytecode[k]
    {
      forall p | p in patches ensures !Covers(p, k) {
        PatchIffPlaced(files, libraries, p);
      }
    }
  }

  /** Linking some libraries and later the others gives the same text as linking all of them at once. */
  lemma LinkInStages(bytecode: string, files: seq<FileReferences>, l1: map<string, string>, l2: map<string, string>)
    requires l1.Keys !! l2.Keys
    requires AllFit(|bytecode|, Patches(files, l1 + l2)) && Agree(|bytecode|, Patches(files, l1 + l2))
    ensures Apply(Apply(bytecode, Patches(files, l1)), Patches(files, l2)) == Apply(bytecode, Patches(files, l1 + l2))
  {
    ApplyInStages(bytecode, Patches(files, l1), Patches(files, l2));
    forall p ensures p in Patches(files, l1 + l2) <==> p in Patches(files, l1) + Patches(files, l2) {
      PatchesOfBoth(files, l1, l2, p);
    }
    OrderDoesNotMatter(bytecode, Patches(files, l1 + l2), Patches(files, l1) + Patches(files, l2));
  }
}
