/**
 * The `--option key:type value` overlay that `assemble` renders into
 * `cli-options.nix` (devenv/src/devenv.rs, inside `Devenv::assemble`).
 */
module CliOptions {
  import opened Common
  import opened Strings

  datatype OptionError =
    | InvalidFormat(token: string)      // a key token without a `:type` part
    | UnsupportedType(typeName: string) // a type outside SupportedTypes

  const Header: string := "{ pkgs, lib, config, ... }: {\n"
  const Footer: string := "}\n"
  const SupportedTypes: seq<string> := ["string", "int", "float", "bool", "path", "pkg", "pkgs"]
  const Force: string := "lib.mkForce "

  /** `chunks_exact(2)`: consecutive (key, value) pairs; an unpaired last element is dropped. */
  function Pairs(options: seq<string>): (ps: seq<(string, string)>)
    ensures |ps| == |options| / 2
    ensures forall i :: 0 <= i < |ps| ==> ps[i] == (options[2 * i], options[2 * i + 1])
  {
    if |options| < 2 then []
    else [(options[0], options[1])] + Pairs(options[2..])
  }

  /** The attribute path of a key token: the text before its first `:`. */
  function KeyPath(key: string): string
  {
    Split(key, ':')[0]
  }

  /** The type of a key token: the text between its first and second `:`. */
  function KeyType(key: string): string
    requires ':' in key
  {
    Split(key, ':')[1]
  }

  /** One `pkgs.` reference per word. */
  function References(words: seq<string>): seq<string>
  {
    seq(|words|, i requires 0 <= i < |words| => "pkgs." + words[i])
  }

  /** A Nix list of `pkgs.` references, one per word. */
  function PackageList(words: seq<string>): string
  {
    "[ " + Join(References(words), " ") + " ]"
  }

  /** The Nix text of one value of the given type. */
  function RenderValue(typeName: string, raw: string): (r: Result<string, OptionError>)
    ensures r.Failure? <==> typeName !in SupportedTypes
    ensures r.Failure? ==> r.error == UnsupportedType(typeName)
  {
    if typeName == "string" then Success("\"" + raw + "\"")
    else if typeName == "int" || typeName == "float" || typeName == "bool" then Success(raw)
    else if typeName == "path" then Success("./" + raw)
    else if typeName == "pkg" then Success("pkgs." + raw)
    else if typeName == "pkgs" then Success(PackageList(SplitWhitespace(raw)))
    else Failure(UnsupportedType(typeName))
  }

  /** The overlay line of one (key, value) pair. */
  function RenderEntry(key: string, raw: string): Result<string, OptionError>
  {
    var parts := Split(key, ':');
    if |parts| < 2 then Failure(InvalidFormat(key))
    else
      var path := parts[0];
      var typeName := parts[1];
      match RenderValue(typeName, raw)
      case Failure(e) => Failure(e)
      case Success(value) =>
        var final := if typeName == "pkgs" then value else Force + value;
        Success("  " + path + " = " + final + ";\n")
  }

  /** The lines of a sequence of pairs, or the error of the first pair that fails. */
  function RenderEntries(pairs: seq<(string, string)>): Result<string, OptionError>
  {
    if pairs == [] then Success("")
    else
      match RenderEntries(pairs[..|pairs| - 1])
      case Failure(e) => Failure(e)
      case Success(body) =>
        var last := pairs[|pairs| - 1];
        match RenderEntry(last.0, last.1)
        case Failure(e) => Failure(e)
        case Success(line) => Success(body + line)
  }

  /** The whole `cli-options.nix` text for the `--option` arguments. */
  function RenderOverlay(options: seq<string>): (r: Result<string, OptionError>)
    ensures r.Success? ==> StartsWith(r.value, Header)
    ensures r.Success? ==> |Footer| <= |r.value| && r.value[|r.value| - |Footer|..] == Footer
  {
    match RenderEntries(Pairs(options))
    case Failure(e) => Failure(e)
    case Success(body) =>
      var text := Header + body + Footer;
      assert text[..|Header|] == Header;
      assert text[|text| - |Footer|..] == Footer;
      Success(text)
  }

  /**
   * The loop of `assemble` that fills `cli_options` with `push_str`, one
   * pair of `chunks_exact(2)` at a time, and bails out on the first bad pair.
   */
  method BuildOverlay(options: seq<string>) returns (r: Result<string, OptionError>)
    ensures r == RenderOverlay(options)
  {
    var out := Header;
    ghost var body := "";
    var k := 0;
    while 2 * k + 1 < |options|
      invariant 0 <= k <= |options| / 2
      invariant out == Header + body
      invariant RenderEntries(Pairs(options)[..k]) == Success(body)
    {
      ghost var ps := Pairs(options);
      var entry := RenderEntry(options[2 * k], options[2 * k + 1]);
      RenderEntriesStep(ps, k, body);
      if entry.Failure? {
        RenderEntriesPrefixFailure(ps, k + 1);
        return Failure(entry.error);
      }
      ConcatAssoc(Header, body, entry.value);
      out := out + entry.value;
      body := body + entry.value;
      k := k + 1;
    }
    assert Pairs(options)[..k] == Pairs(options);
    out := out + Footer;
    r := Success(out);
  }

  // ---------------------------------------------------------------------
  // properties

  /** Rendering one more pair appends its line, or fails with its error. */
  lemma RenderEntriesStep(pairs: seq<(string, string)>, k: nat, body: string)
    requires k < |pairs| && RenderEntries(pairs[..k]) == Success(body)
    ensures var e := RenderEntry(pairs[k].0, pairs[k].1);
            RenderEntries(pairs[..k + 1]) == if e.Failure? then Failure(e.error) else Success(body + e.value)
  {
    assert pairs[..k + 1][..k] == pairs[..k];
  }

  /** Once a prefix of the pairs fails, the rendering of all of them fails the same way. */
  lemma {:induction false} RenderEntriesPrefixFailure(pairs: seq<(string, string)>, k: nat)
    requires k <= |pairs| && RenderEntries(pairs[..k]).Failure?
    ensures RenderEntries(pairs) == RenderEntries(pairs[..k])
    decreases |pairs| - k
  {
    if k < |pairs| {
      assert pairs[..k + 1][..k] == pairs[..k];
      RenderEntriesPrefixFailure(pairs, k + 1);
    } else {
      assert pairs[..k] == pairs;
    }
  }

  /** A key token fails exactly when it has no `:`, or its type is not supported. */
  lemma EntryFailsIff(key: string, raw: string)
    ensures RenderEntry(key, raw).Failure? <==> ':' !in key || KeyType(key) !in SupportedTypes
    ensures ':' !in key ==> RenderEntry(key, raw) == Failure(InvalidFormat(key))
    ensures ':' in key && KeyType(key) !in SupportedTypes ==>
              RenderEntry(key, raw) == Failure(UnsupportedType(KeyType(key)))
  {
  }

  /** Every pair renders to the line `  path = value;` and only `pkgs` values go unforced. */
  lemma EntryShape(key: string, raw: string)
    requires RenderEntry(key, raw).Success?
    ensures ':' in key && KeyType(key) in SupportedTypes
    ensures var line := RenderEntry(key, raw).value;
            var lead := "  " + KeyPath(key) + " = ";
            && StartsWith(line, lead)
            && |line| >= |lead| + 2 && line[|line| - 2..] == ";\n"
            && (StartsWith(line[|lead|..], Force) <==> KeyType(key) != "pkgs")
  {
    var line := RenderEntry(key, raw).value;
    var lead := "  " + KeyPath(key) + " = ";
    var t := KeyType(key);
    var value := RenderValue(t, raw).value;
    var final := if t == "pkgs" then value else Force + value;
    assert line == lead + final + ";\n";
    assert line[..|lead|] == lead;
    assert line[|lead|..] == final + ";\n";
    if t == "pkgs" {
      assert final[..2] == "[ ";
      assert (final + ";\n")[0] == '[';
    } else {
      assert (final + ";\n")[..|Force|] == Force;
    }
  }

  /** Every pair renders. */
  predicate AllRender(pairs: seq<(string, string)>)
  {
    forall j :: 0 <= j < |pairs| ==> RenderEntry(pairs[j].0, pairs[j].1).Success?
  }

  /** The overlay lines of pairs that all render, in order. */
  function EntryLines(pairs: seq<(string, string)>): seq<string>
    requires AllRender(pairs)
  {
    seq(|pairs|, j requires 0 <= j < |pairs| => RenderEntry(pairs[j].0, pairs[j].1).value)
  }

  /** Concatenation of a sequence of texts, last one appended last. */
  function Concat(ss: seq<string>): string
  {
    if ss == [] then "" else Concat(ss[..|ss| - 1]) + ss[|ss| - 1]
  }

  /** When every pair renders, the output is all their lines in the order given. */
  lemma {:induction false} RenderEntriesSuccess(pairs: seq<(string, string)>)
    requires AllRender(pairs)
    ensures RenderEntries(pairs) == Success(Concat(EntryLines(pairs)))
  {
    if pairs != [] {
      var init := pairs[..|pairs| - 1];
      assert AllRender(init) by {
        forall j | 0 <= j < |init| ensures RenderEntry(init[j].0, init[j].1).Success? {
          assert init[j] == pairs[j];
        }
      }
      RenderEntriesSuccess(init);
      assert EntryLines(pairs)[..|pairs| - 1] == EntryLines(init);
    }
  }

  /** When some pair fails, the result is the error of the first pair that fails. */
  lemma {:induction false} RenderEntriesFirstFailure(pairs: seq<(string, string)>, i: nat)
    requires i < |pairs|
    requires AllRender(pairs[..i])
    requires RenderEntry(pairs[i].0, pairs[i].1).Failure?
    ensures RenderEntries(pairs) == Failure(RenderEntry(pairs[i].0, pairs[i].1).error)
  {
    RenderEntriesSuccess(pairs[..i]);
    RenderEntriesStep(pairs, i, Concat(EntryLines(pairs[..i])));
    RenderEntriesPrefixFailure(pairs, i + 1);
  }

  /** The overlay renders exactly when every pair renders. */
  lemma RenderOverlayFailsIff(options: seq<string>)
    ensures RenderOverlay(options).Failure? <==>
              exists i :: 0 <= i < |options| / 2 && RenderEntry(options[2 * i], options[2 * i + 1]).Failure?
  {
    var ps := Pairs(options);
    if exists i :: 0 <= i < |ps| && RenderEntry(ps[i].0, ps[i].1).Failure? {
      var i := FirstFailing(ps);
      assert AllRender(ps[..i]) by {
        forall j | 0 <= j < i ensures RenderEntry(ps[..i][j].0, ps[..i][j].1).Success? {
          assert ps[..i][j] == ps[j];
        }
      }
      RenderEntriesFirstFailure(ps, i);
    } else {
      RenderEntriesSuccess(ps);
    }
  }

  /** The index of the first pair that fails to render. */
  lemma FirstFailing(pairs: seq<(string, string)>) returns (i: nat)
    requires exists i :: 0 <= i < |pairs| && RenderEntry(pairs[i].0, pairs[i].1).Failure?
    ensures i < |pairs| && RenderEntry(pairs[i].0, pairs[i].1).Failure?
    ensures forall j :: 0 <= j < i ==> RenderEntry(pairs[j].0, pairs[j].1).Success?
  {
    i := 0;
    while RenderEntry(pairs[i].0, pairs[i].1).Success?
      invariant i < |pairs|
      invariant forall j :: 0 <= j < i ==> RenderEntry(pairs[j].0, pairs[j].1).Success?
      invariant exists m :: i <= m < |pairs| && RenderEntry(pairs[m].0, pairs[m].1).Failure?
      decreases |pairs| - i
    {
      i := i + 1;
    }
  }

  /** A successful overlay is the header, one line per pair in order, and the footer. */
  lemma RenderOverlayShape(options: seq<string>)
    requires RenderOverlay(options).Success?
    ensures AllRender(Pairs(options))
    ensures RenderOverlay(options).value == Header + Concat(EntryLines(Pairs(options))) + Footer
  {
    RenderOverlayFailsIff(options);
    RenderEntriesSuccess(Pairs(options));
  }

  /** A trailing `--option` element without a partner changes nothing. */
  lemma TrailingOptionIgnored(options: seq<string>, extra: string)
    requires |options| % 2 == 0
    ensures RenderOverlay(options + [extra]) == RenderOverlay(options)
  {
    assert Pairs(options + [extra]) == Pairs(options);
  }

  /** A `pkgs` value lists one `pkgs.` reference per whitespace-separated word. */
  lemma PkgsRendersWordList(words: seq<string>)
    requires forall i :: 0 <= i < |words| ==> IsWord(words[i])
    ensures RenderValue("pkgs", Join(words, " ")) == Success(PackageList(words))
  {
    var raw := Join(words, " ");
    assert RenderValue("pkgs", raw) == Success(PackageList(SplitWhitespace(raw)));
    SplitWhitespaceJoin(words);
  }

  /** The pieces of a well-formed `path:type` key token. */
  lemma KeyParts(path: string, typeName: string)
    requires ':' !in path && ':' !in typeName
    ensures var key := path + ":" + typeName;
            ':' in key && Split(key, ':') == [path, typeName] && KeyPath(key) == path && KeyType(key) == typeName
  {
    SplitJoin([path, typeName], ':');
    assert Join([path, typeName], [':']) == path + ":" + typeName;
  }

  /** A well-formed `path:type` key renders its value at `path`, forced unless the type is `pkgs`. */
  lemma EntryOfParts(path: string, typeName: string, raw: string)
    requires ':' !in path && ':' !in typeName
    ensures var v := RenderValue(typeName, raw);
            RenderEntry(path + ":" + typeName, raw) ==
              if v.Failure? then Failure(v.error)
              else Success("  " + path + " = " + (if typeName == "pkgs" then v.value else Force + v.value) + ";\n")
  {
    KeyParts(path, typeName);
  }

  /** A pair whose type is `pkgs` is written as a package list without `lib.mkForce`. */
  lemma PkgsEntryUnforced(path: string, typeName: string, words: seq<string>)
    requires ':' !in path && typeName == "pkgs"
    requires forall i :: 0 <= i < |words| ==> IsWord(words[i])
    ensures RenderEntry(path + ":" + typeName, Join(words, " ")) ==
              Success("  " + path + " = " + PackageList(words) + ";\n")
  {
    var raw := Join(words, " ");
    PkgsRendersWordList(words);
    assert RenderValue(typeName, raw) == Success(PackageList(words));
    EntryOfParts(path, typeName, raw);
  }

  /** A pair of every other supported type is written wrapped in `lib.mkForce`. */
  lemma OtherEntryForced(path: string, typeName: string, raw: string)
    requires ':' !in path && ':' !in typeName
    requires typeName in SupportedTypes && typeName != "pkgs"
    ensures RenderEntry(path + ":" + typeName, raw) ==
              Success("  " + path + " = " + (Force + RenderValue(typeName, raw).value) + ";\n")
  {
    EntryOfParts(path, typeName, raw);
  }

  /** A single `string` option forces the quoted value at its path, inside the header and footer. */
  lemma StringOverlay(path: string, typeName: string, raw: string)
    requires ':' !in path && typeName == "string"
    ensures RenderOverlay([path + ":" + typeName, raw]) ==
              Success(Header + ("  " + path + " = " + (Force + ("\"" + raw + "\"")) + ";\n") + Footer)
  {
    OtherEntryForced(path, typeName, raw);
    var line := "  " + path + " = " + (Force + ("\"" + raw + "\"")) + ";\n";
    var ps := Pairs([path + ":" + typeName, raw]);
    assert ps == [(path + ":" + typeName, raw)];
    assert ps[..0] == [];
    RenderEntriesStep(ps, 0, "");
    assert ps[..1] == ps;
    assert "" + line == line;
    assert RenderEntries(ps) == Success(line);
  }

  /** Type `pkgs` with value `"a b"` gives a list of the two packages `a` and `b`, unforced. */
  lemma PkgsOverlayExample(path: string)
    requires ':' !in path
    ensures RenderEntry(path + ":" + "pkgs", "a b") == Success("  " + path + " = " + "[ pkgs.a pkgs.b ]" + ";\n")
  {
    TwoWords();
    PkgsEntryUnforced(path, "pkgs", ["a", "b"]);
  }

  lemma TwoWords()
    ensures IsWord("a") && IsWord("b")
    ensures Join(["a", "b"], " ") == "a b"
    ensures PackageList(["a", "b"]) == "[ pkgs.a pkgs.b ]"
  {
    var refs := References(["a", "b"]);
    assert refs[0] == "pkgs.a" && refs[1] == "pkgs.b";
    assert refs == ["pkgs.a", "pkgs.b"];
    assert Join(["pkgs.a", "pkgs.b"], " ") == "pkgs.a pkgs.b";
  }
}
