/** target.txt modes: how a caller's uid is classified from the modes of its packages. */
module PkgConfig {
  import opened Common
  import opened Hooks
  import opened Text

  datatype Mode = Auto | LeafHack | Generate

  type Packages = seq<Utf16>

  /** The modes of target.txt and the packages already resolved for each uid. */
  datatype Config = Config(packageModes: map<Utf16, Mode>, uidPackages: map<Int32, Packages>)

  /** Some package of the list has the given mode. */
  predicate AnyMode(modes: map<Utf16, Mode>, packages: Packages, mode: Mode) {
    exists i :: 0 <= i < |packages| && packages[i] in modes && modes[packages[i]] == mode
  }

  /** hasTargetMode: false for a uid whose packages are not resolved yet. */
  predicate HasTargetMode(c: Config, uid: Int32, mode: Mode) {
    uid in c.uidPackages && AnyMode(c.packageModes, c.uidPackages[uid], mode)
  }

  predicate IsPlainAuto(c: Config, uid: Int32) {
    && !HasTargetMode(c, uid, Mode.Generate) && !HasTargetMode(c, uid, LeafHack)
    && HasTargetMode(c, uid, Auto)
  }

  /** The packages of a uid once looked up: cached, else what the package manager answers, if it is there. */
  function Resolve(c: Config, manager: map<Int32, Packages>, uid: Int32): Config {
    if uid in c.uidPackages || uid !in manager then c
    else c.(uidPackages := c.uidPackages[uid := manager[uid]])
  }

  /** checkNeed on resolved packages; AUTO counts where `autoCounts` says so. */
  predicate Needs(c: Config, uid: Int32, target: Mode, autoCounts: bool) {
    && uid in c.uidPackages
    && (AnyMode(c.packageModes, c.uidPackages[uid], target)
        || (autoCounts && AnyMode(c.packageModes, c.uidPackages[uid], Auto)))
  }

  /** TeeProbeClassifier: AUTO never forges and always intercepts, whatever the TEE's state. */
  const AUTO_GENERATE_ALLOWED := false
  const AUTO_LEAF_HACK_ALLOWED := true

  /** The modes one hook evaluates: the grant shortcut before any lookup, everything else after it. */
  function ModesOf(c: Config, manager: map<Int32, Packages>, uid: Int32): Modes {
    var resolved := Resolve(c, manager, uid);
    Modes(IsPlainAuto(c, uid),
          Needs(resolved, uid, Mode.Generate, AUTO_GENERATE_ALLOWED),
          Needs(resolved, uid, LeafHack, AUTO_LEAF_HACK_ALLOWED),
          HasTargetMode(resolved, uid, LeafHack),
          IsPlainAuto(resolved, uid))
  }

  /** The modes the read post-hook evaluates: both lookups that resolve nothing come before the ones that do. */
  function PostModesOf(c: Config, manager: map<Int32, Packages>, uid: Int32): Modes {
    ModesOf(c, manager, uid).(explicitLeaf := HasTargetMode(c, uid, LeafHack), plainAuto := IsPlainAuto(c, uid))
  }

  /** The configuration object; `packageModes` is swapped whole, `uidPackages` fills up lazily. */
  class PkgConfig {
    var packageModes: map<Utf16, Mode>
    var uidPackages: map<Int32, Packages>

    constructor ()
      ensures Value() == Config(map[], map[])
    {
      packageModes, uidPackages := map[], map[];
    }

    function Value(): Config
      reads this
    {
      Config(packageModes, uidPackages)
    }

    /** checkNeed: resolves the uid's packages, then scans them for the mode. */
    method CheckNeed(uid: Int32, manager: map<Int32, Packages>, target: Mode, autoCounts: bool) returns (need: bool)
      modifies this
      ensures Value() == Resolve(old(Value()), manager, uid)
      ensures need == Needs(Value(), uid, target, autoCounts)
    {
      if uid !in uidPackages {
        if uid !in manager {
          return false;
        }
        uidPackages := uidPackages[uid := manager[uid]];
      }
      var packages := uidPackages[uid];
      var i := 0;
      while i < |packages|
        invariant 0 <= i <= |packages|
        invariant forall j :: 0 <= j < i && packages[j] in packageModes ==>
                    packageModes[packages[j]] != target && !(autoCounts && packageModes[packages[j]] == Auto)
      {
        if packages[i] in packageModes {
          var mode := packageModes[packages[i]];
          if mode == target || (mode == Auto && autoCounts) {
            return true;
          }
        }
        i := i + 1;
      }
      return false;
    }

    /** updateTargetPackages: the last line naming a package decides its mode; a missing file names none. */
    method UpdateTargetPackages(file: Option<seq<Utf16>>)
      modifies this
      ensures uidPackages == old(uidPackages)
      ensures forall p :: Lookup(packageModes, p) == LastMode(LinesOf(file), p)
    {
      var modes: map<Utf16, Mode> := map[];
      var lines := LinesOf(file);
      for k := 0 to |lines|
        invariant uidPackages == old(uidPackages)
        invariant forall p :: Lookup(modes, p) == LastMode(lines[..k], p)
      {
        assert lines[..k + 1] == lines[..k] + [lines[k]];
        var line := lines[k];
        LineCounts(lines[..k], line, modes);
        ghost var counted := WithTarget(modes, TargetOf(line));
        var n := Trim(line);
        if n != [] && line[0] != HASH {
          if n[|n| - 1] == GENERATE_MARK {
            modes := modes[Trim(n[..|n| - 1]) := Mode.Generate];
          } else if n[|n| - 1] == LEAF_HACK_MARK {
            modes := modes[Trim(n[..|n| - 1]) := LeafHack];
          } else {
            modes := modes[n := Auto];
          }
        }
        assert modes == counted;
      }
      assert lines[..|lines|] == lines;
      packageModes := modes;
    }
  }

  const GENERATE_MARK: CodeUnit := 0x21
  const LEAF_HACK_MARK: CodeUnit := 0x3f

  function LinesOf(file: Option<seq<Utf16>>): seq<Utf16> {
    if file.Some? then file.value else []
  }

  /** The package and mode of a line; only a first character marks a comment. */
  function TargetOf(line: Utf16): Option<(Utf16, Mode)> {
    var n := Trim(line);
    if n == [] || line[0] == HASH then None
    else if n[|n| - 1] == GENERATE_MARK then Some((Trim(n[..|n| - 1]), Mode.Generate))
    else if n[|n| - 1] == LEAF_HACK_MARK then Some((Trim(n[..|n| - 1]), LeafHack))
    else Some((n, Auto))
  }

  function WithTarget(modes: map<Utf16, Mode>, target: Option<(Utf16, Mode)>): map<Utf16, Mode> {
    if target.Some? then modes[target.value.0 := target.value.1] else modes
  }

  lemma LineCounts(lines: seq<Utf16>, line: Utf16, modes: map<Utf16, Mode>)
    requires forall p :: Lookup(modes, p) == LastMode(lines, p)
    ensures forall p :: Lookup(WithTarget(modes, TargetOf(line)), p) == LastMode(lines + [line], p)
  {
    assert (lines + [line])[..|lines|] == lines;
  }

  /** The mode the last line naming a package gives it. */
  function LastMode(lines: seq<Utf16>, package: Utf16): Option<Mode> {
    if lines == [] then None
    else
      var last := TargetOf(lines[|lines| - 1]);
      if last.Some? && last.value.0 == package then Some(last.value.1) else LastMode(lines[..|lines| - 1], package)
  }

  /** Once its packages are resolved, a plain AUTO uid is intercepted, never forged for, and stays plain AUTO. */
  lemma PlainAutoModes(c: Config, manager: map<Int32, Packages>, uid: Int32)
    requires IsPlainAuto(Resolve(c, manager, uid), uid)
    ensures var m := ModesOf(c, manager, uid);
            m.plainAuto && m.needHack && !m.needGenerate && !m.explicitLeaf
            && (m.plainAutoAtEntry <==> uid in c.uidPackages)
  {
  }

  /** The packages of a uid as far as anyone knows them. */
  function KnownPackages(c: Config, manager: map<Int32, Packages>, uid: Int32): Packages {
    if uid in c.uidPackages then c.uidPackages[uid] else if uid in manager then manager[uid] else []
  }

  ghost predicate Marked(c: Config, packages: Packages, mode: Mode) {
    exists p :: p in packages && p in c.packageModes && c.packageModes[p] == mode
  }

  lemma MarkedIsAny(c: Config, packages: Packages, mode: Mode)
    ensures AnyMode(c.packageModes, packages, mode) <==> Marked(c, packages, mode)
  {
    if p :| p in packages && p in c.packageModes && c.packageModes[p] == mode {
      var i :| 0 <= i < |packages| && packages[i] == p;
      assert packages[i] in c.packageModes && c.packageModes[packages[i]] == mode;
    }
  }

  /**
   A caller is forged for exactly if one of its packages is marked `!`, intercepted exactly if one is marked
   `?` or not at all, asks for leaf certificates exactly if one is marked `?`, and is plain AUTO exactly if
   one is not marked and none is. The entry of a read knows only packages looked up before.
   */
  lemma ModesExactly(c: Config, manager: map<Int32, Packages>, uid: Int32)
    ensures var m, packages := ModesOf(c, manager, uid), KnownPackages(c, manager, uid);
            && (m.needGenerate <==> Marked(c, packages, Mode.Generate))
            && (m.needHack <==> Marked(c, packages, LeafHack) || Marked(c, packages, Auto))
            && (m.explicitLeaf <==> Marked(c, packages, LeafHack))
            && (m.plainAuto <==> Marked(c, packages, Auto) && !Marked(c, packages, LeafHack) && !Marked(c, packages, Mode.Generate))
            && (m.plainAutoAtEntry <==> m.plainAuto && uid in c.uidPackages)
    ensures var m, late := ModesOf(c, manager, uid), PostModesOf(c, manager, uid);
            && late.needGenerate == m.needGenerate && late.needHack == m.needHack
            && (late.explicitLeaf <==> m.explicitLeaf && uid in c.uidPackages)
            && (late.plainAuto <==> m.plainAuto && uid in c.uidPackages)
  {
    var packages := KnownPackages(c, manager, uid);
    MarkedIsAny(c, packages, Mode.Generate);
    MarkedIsAny(c, packages, LeafHack);
    MarkedIsAny(c, packages, Auto);
  }

  /** A text without space at either end is not trimmed. */
  lemma NothingToTrim(s: Utf16)
    requires s != [] ==> !IsWhitespace(s[0]) && !IsWhitespace(s[|s| - 1])
    ensures Trim(s) == s
  {
  }

  /** A line of target.txt: a package, forged for if a `!` follows, with leaf certificates if a `?` does, else plain. */
  lemma LinesMean(p: Utf16)
    requires p != [] && !IsWhitespace(p[0]) && !IsWhitespace(p[|p| - 1]) && p[0] != '#' as int
    requires p[|p| - 1] != '!' as int && p[|p| - 1] != '?' as int
    ensures TargetOf(p) == Some((p, Auto))
    ensures TargetOf(p + ['!' as int]) == Some((p, Mode.Generate))
    ensures TargetOf(p + ['?' as int]) == Some((p, LeafHack))
    ensures TargetOf(['#' as int] + p) == None && TargetOf([]) == None
  {
    NothingToTrim(p);
    var forged, leaf := p + ['!' as int], p + ['?' as int];
    NothingToTrim(forged);
    NothingToTrim(leaf);
    assert forged[..|forged| - 1] == p && leaf[..|leaf| - 1] == p;
  }

  /** A later line about a package replaces an earlier one; a line about no package or another leaves it. */
  lemma LastLineWins(lines: seq<Utf16>, line: Utf16, p: Utf16)
    ensures LastMode([], p) == None
    ensures LastMode(lines + [line], p)
         == match TargetOf(line)
            case None => LastMode(lines, p)
            case Some(target) => if target.0 == p then Some(target.1) else LastMode(lines, p)
  {
    assert (lines + [line])[..|lines|] == lines;
  }
}
