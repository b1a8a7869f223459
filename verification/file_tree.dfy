/** The directory tree the maintenance scripts walk, under
    `public/data/work-instructions`. A directory holds its entries in listing order;
    a lookup by name takes the first entry of that name, as a real directory has at
    most one. The content of a file is kept as text; parsing it is left to the
    scripts' models. */
module FileTree {
  import opened Wrappers
  import opened Strings
  import opened Seqs

  datatype Node = File(content: string) | Dir(entries: seq<Named>)

  datatype Named = Named(name: string, node: Node)

  /** The data root the scripts start from, relative to the repository. */
  const DataRoot: string := "public/data/work-instructions"

  /** The four media folders of a drawing, in the order the scripts visit them. */
  const MediaKinds: seq<string> := ["images", "videos", "pdfs", "programs"]

  function NameIs(name: string): Named -> bool {
    (e: Named) => e.name == name
  }

  /** The entries a directory lists (`glob("*")`); a file lists nothing. */
  function Entries(node: Node): (r: seq<Named>)
    ensures node.File? ==> r == []
  {
    if node.Dir? then node.entries else []
  }

  /** `(node / name).exists()`: the entry of that name, if the node is a directory
      that has one. */
  function Child(node: Node, name: string): (r: Option<Node>)
    ensures node.File? ==> r.None?
  {
    if node.File? then None
    else
      var k := FindIndex(NameIs(name), node.entries);
      if k < 0 then None else Some(node.entries[k].node)
  }

  /** A lookup finds an entry exactly when the directory lists one of that name, and
      what it finds is one of the listed entries. */
  lemma ChildSpec(node: Node, name: string)
    ensures Child(node, name).Some? <==> node.Dir? && exists i :: 0 <= i < |node.entries| && node.entries[i].name == name
    ensures Child(node, name).Some? ==> Named(name, Child(node, name).value) in node.entries
  {
    if node.Dir? {
      var k := FindIndex(NameIs(name), node.entries);
      if k >= 0 {
        assert node.entries[k] == Named(name, node.entries[k].node);
      }
    }
  }

  /** The first match of a predicate depends only on the predicate's values. */
  lemma {:induction false} FindIndexAgree<T>(f: T -> bool, s: seq<T>, t: seq<T>)
    requires |s| == |t| && forall i :: 0 <= i < |s| ==> f(s[i]) == f(t[i])
    ensures FindIndex(f, s) == FindIndex(f, t)
    decreases |s|
  {
    if |s| > 0 && !f(s[0]) {
      FindIndexAgree(f, s[1..], t[1..]);
    }
  }

  /** The node with its entry `name` replaced by `child`. */
  function WithChild(node: Node, name: string, child: Node): (r: Node)
    requires Child(node, name).Some?
    ensures r.Dir? && |r.entries| == |node.entries|
    ensures Child(r, name) == Some(child)
    ensures forall other :: other != name ==> Child(r, other) == Child(node, other)
  {
    var k := FindIndex(NameIs(name), node.entries);
    var r := Dir(SetAt(node.entries, k, Named(name, child)));
    forall other | other != name ensures Child(r, other) == Child(node, other) {
      FindIndexAgree(NameIs(other), node.entries, r.entries);
    }
    FindIndexAgree(NameIs(name), node.entries, r.entries);
    r
  }

  /** Writing back the child that is already there changes nothing. */
  lemma WithSameChild(node: Node, name: string)
    requires Child(node, name).Some?
    ensures WithChild(node, name, Child(node, name).value) == node
  {
    var k := FindIndex(NameIs(name), node.entries);
    assert SetAt(node.entries, k, Named(name, node.entries[k].node)) == node.entries;
  }

  /** A test on the entries of a media folder, by drawing and folder name. The
      scripts' walks are stated for any such test and used with the script's own. */
  type StepTest = string -> string -> Named -> bool

  /** `str(path)` of a path below the data root. */
  function PathString(parts: seq<string>): string {
    DataRoot + "/" + Join(parts, "/")
  }
}
