/**
 * The boundary that incoming files are documented to keep, `write_files_to_workspace` of
 * `crates/clone/src/manifest.rs`: the filter looks at the key as it is spelled, the file system at the path
 * it names.
 */
module ManifestInbound {
  import opened Common
  import opened FileTree
  import opened PathText
  import opened Manifest
  import opened ManifestRoundTrip

  predicate IsBytecode(rel: string) {
    "__pycache__" in Split(rel) || EndsWith(rel, ".pyc")
  }

  /** The first named component is the first component, unless that is empty or `.`. */
  lemma NamedTop(parts: seq<string>)
    requires parts != [] && parts[0] != "" && parts[0] != "."
    ensures Named(parts) != [] && Named(parts)[0] == parts[0]
  {
  }

  /**
   * A key that names a path outside the definition layer is let through to be written if and only if it
   * is spelled with a leading `.` component (and is neither absolute, nor goes up, nor is bytecode).
   */
  lemma LeavesLayerExactlyWhen(root: Entry, rel: string, content: string)
    requires Components(rel) != [] && !InLayer(Components(rel)[0])
    ensures !Traverses(rel) && !IsBytecode(rel) && Split(rel)[0] == "." ==>
              WriteOne(root, rel, content) == PlaceFile(root, rel, content)
    ensures Traverses(rel) || IsBytecode(rel) || Split(rel)[0] != "." ==>
              WriteOne(root, rel, content).root == root
                && (WriteOne(root, rel, content).warnings != [] || WriteOne(root, rel, content).error.Some?)
  {
    hide PlaceFile, InLayer;
    var top := Split(rel)[0];
    DotInLayer();
    if top == "" {
      SlashOnly(rel);
    } else if top != "." {
      NamedTop(Split(rel));
    }
  }

  lemma DotInLayer()
    ensures InLayer(".")
  {
    assert forall i :: 0 <= i <= 1 ==> |"."[i..]| < |".bak."|;
  }

  /** A text whose first component is empty is empty or absolute. */
  lemma SlashOnly(rel: string)
    requires Split(rel)[0] == ""
    ensures rel == "" || StartsWith(rel, "/")
    ensures rel == "" ==> Components(rel) == []
  {
  }

  /** The deployment's own `agent.toml` is outside the layer; spelled with a leading `./` it is written. */
  lemma DotSlashIsWritten(content: string)
    ensures var o, kept := WriteOne(EMPTY_DIR, "./agent.toml", content), WriteOne(EMPTY_DIR, "agent.toml", content);
            && o.error.None? && o.warnings == [] && KindAt(o.root, ["agent.toml"]) == Content(content)
            && kept == Outcome(EMPTY_DIR, [NotDefinitionLayer("agent.toml")], None)
  {
    hide WriteOne, PlaceFile, KindAt, Split, Components, InLayer, Traverses, IsBytecode, NamesFile;
    var p: Path := ["agent.toml"];
    DotSlashKey();
    AgentIsOutside();
    LeavesLayerExactlyWhen(EMPTY_DIR, "./agent.toml", content);
    RefusedPlainly(content);
    forall i {:trigger p[..i]} | 0 <= i < |p| ensures !KindAt(EMPTY_DIR, p[..i]).Content? {
      EmptyHolds(p[..i]);
    }
    EmptyHolds(p);
    EmptyHolds(Tmp(p));
    PlaceFileByPath(EMPTY_DIR, "./agent.toml", content, p, p);
  }

  lemma AgentIsOutside()
    ensures !InLayer("agent.toml") && Split("agent.toml") == ["agent.toml"]
  {
    hide Split;
    SplitName("agent.toml", "");
  }

  lemma RefusedPlainly(content: string)
    ensures WriteOne(EMPTY_DIR, "agent.toml", content) == Outcome(EMPTY_DIR, [NotDefinitionLayer("agent.toml")], None)
  {
    hide Split, InLayer, PlaceFile;
    AgentIsOutside();
    SlashFirst("agent.toml");
  }

  lemma DotSlashKey()
    ensures var rel := "./agent.toml";
            && Split(rel) == [".", "agent.toml"] && Components(rel) == ["agent.toml"]
            && !Traverses(rel) && !IsBytecode(rel) && NamesFile(rel)
  {
    hide Split, EndsWith;
    SplitName("agent.toml", "");
    SplitName(".", "agent.toml");
    assert "." + "/" + "agent.toml" == "./agent.toml";
    NamedTop(["agent.toml"]);
    assert [".", "agent.toml"][1..] == ["agent.toml"] && ["agent.toml"][1..] == [];
    EndsAlike("./agent.toml", ".pyc");
    assert "./agent.toml"[0] != "/"[0];
    assert Named(["agent.toml"]) == ["agent.toml"] + Named([]);
    assert Named([".", "agent.toml"]) == [] + Named(["agent.toml"]);
  }
}
