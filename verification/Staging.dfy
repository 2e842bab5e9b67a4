/** The staging tree of a composition and the writes that build it. */
module Staging {
  import opened Wrappers
  import opened Bytes

  datatype Node = File(data: Blob) | Link(target: string) | Dir

  /** Paths are relative to the staging directory, as the source prints them. */
  type Tree = map<string, Node>

  /** One archive member, or one write by a stage. */
  datatype Member = Member(name: string, node: Node)

  datatype Error =
    | ArtifactMissing | BlobMissing | BadArchive | MemberMissing | BadManifest | BadChecksums | ChecksumMismatch
    | NoDatabase | NotAFile | LinkInTheWay | UnknownInitSystem

  function At(t: Tree, p: string): Option<Node> {
    if p in t then Some(t[p]) else None
  }

  /** The tree after the writes `ws`, in order. */
  function Applied(t: Tree, ws: seq<Member>): Tree
    decreases ws
  {
    if ws == [] then t else Applied(t[ws[0].name := ws[0].node], ws[1..])
  }

  function LastWrite(ws: seq<Member>, p: string): Option<Node> {
    if ws == [] then None
    else
      var w := ws[|ws| - 1];
      if w.name == p then Some(w.node) else LastWrite(ws[..|ws| - 1], p)
  }

  lemma {:induction false} LastWriteCons(w: Member, ws: seq<Member>, p: string)
    ensures LastWrite([w] + ws, p)
         == if LastWrite(ws, p).Some? then LastWrite(ws, p) else if w.name == p then Some(w.node) else None
  {
    if ws == [] {
      assert [w] + ws == [w];
    } else {
      assert ([w] + ws)[..|ws|] == [w] + ws[..|ws| - 1];
      LastWriteCons(w, ws[..|ws| - 1], p);
    }
  }

  /** Each path holds what was written to it last, and what it held before if it was not written. */
  lemma {:induction false} AppliedIs(t: Tree, ws: seq<Member>, p: string)
    ensures At(Applied(t, ws), p) == if LastWrite(ws, p).Some? then LastWrite(ws, p) else At(t, p)
    decreases ws
  {
    if ws != [] {
      AppliedIs(t[ws[0].name := ws[0].node], ws[1..], p);
      assert ws == [ws[0]] + ws[1..];
      LastWriteCons(ws[0], ws[1..], p);
    }
  }

  lemma {:induction false} AppliedAppend(t: Tree, a: seq<Member>, b: seq<Member>)
    ensures Applied(t, a + b) == Applied(Applied(t, a), b)
    decreases a
  {
    if a == [] {
      assert a + b == b;
    } else {
      assert (a + b)[0] == a[0] && (a + b)[1..] == a[1..] + b;
      AppliedAppend(t[a[0].name := a[0].node], a[1..], b);
    }
  }

  lemma AppliedSnoc(t: Tree, a: seq<Member>, w: Member)
    ensures Applied(t, a + [w]) == Applied(t, a)[w.name := w.node]
  {
    AppliedAppend(t, a, [w]);
    assert [w][1..] == [];
  }

  lemma {:induction false} LastWriteAppend(a: seq<Member>, b: seq<Member>, p: string)
    ensures LastWrite(a + b, p) == if LastWrite(b, p).Some? then LastWrite(b, p) else LastWrite(a, p)
  {
    if b == [] {
      assert a + b == a;
    } else {
      assert (a + b)[..|a + b| - 1] == a + b[..|b| - 1];
      LastWriteAppend(a, b[..|b| - 1], p);
    }
  }

  class Stage {
    var tree: Tree

    constructor ()
      ensures tree == map[]
    {
      tree := map[];
    }

    method Write(name: string, node: Node)
      modifies this
      ensures tree == old(tree)[name := node]
    {
      tree := tree[name := node];
    }

    /** `tar.extractall` */
    method ExtractAll(members: seq<Member>)
      modifies this
      ensures tree == Applied(old(tree), members)
    {
      var i := 0;
      while i < |members|
        invariant 0 <= i <= |members|
        invariant tree == Applied(old(tree), members[..i])
      {
        AppliedSnoc(old(tree), members[..i], members[i]);
        assert members[..i + 1] == members[..i] + [members[i]];
        Write(members[i].name, members[i].node);
        i := i + 1;
      }
      assert members[..i] == members;
    }

    method Remove(name: string)
      requires name in tree
      modifies this
      ensures tree == old(tree) - {name}
    {
      tree := tree - {name};
    }
  }
}
