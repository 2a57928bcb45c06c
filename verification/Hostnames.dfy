/** internal/render (validFQDN, FileName), internal/manager (isRouteConfig): which names
    a vhost may have, and which names in the include directory are vhosts. */
module Hostnames {

  // ---- strings.Split and its inverse ----

  function Split(s: string, sep: char): (parts: seq<string>)
    ensures |parts| >= 1
  {
    if s == "" then [""]
    else
      var rest := Split(s[1..], sep);
      if s[0] == sep then [""] + rest else [[s[0]] + rest[0]] + rest[1..]
  }

  function Join(parts: seq<string>, sep: char): string {
    if parts == [] then ""
    else if |parts| == 1 then parts[0]
    else parts[0] + [sep] + Join(parts[1..], sep)
  }

  lemma {:induction false} JoinSplit(s: string, sep: char)
    ensures Join(Split(s, sep), sep) == s
    ensures forall i | 0 <= i < |Split(s, sep)| :: sep !in Split(s, sep)[i]
  {
    if s != "" {
      JoinSplit(s[1..], sep);
      var rest := Split(s[1..], sep);
      assert s == [s[0]] + s[1..];
      if s[0] == sep {
        assert ([""] + rest)[1..] == rest;
      } else {
        assert ([[s[0]] + rest[0]] + rest[1..])[1..] == rest[1..];
      }
    }
  }

  lemma {:induction false} SplitJoin(parts: seq<string>, sep: char)
    requires parts != [] && forall i | 0 <= i < |parts| :: sep !in parts[i]
    ensures Split(Join(parts, sep), sep) == parts
    decreases |parts|, |parts[0]|
  {
    var s := Join(parts, sep);
    if parts[0] != "" {
      var shorter := [parts[0][1..]] + parts[1..];
      SplitJoin(shorter, sep);
      assert shorter[1..] == parts[1..];
      assert s == [parts[0][0]] + Join(shorter, sep);
      assert parts[0] == [parts[0][0]] + shorter[0];
      assert parts == [parts[0]] + parts[1..];
    } else if |parts| > 1 {
      SplitJoin(parts[1..], sep);
      assert s == [sep] + Join(parts[1..], sep);
    } else {
      assert parts == [""];
    }
  }

  // ---- hostnames ----

  predicate LetDig(c: char) { 'a' <= c <= 'z' || 'A' <= c <= 'Z' || '0' <= c <= '9' }

  /** The letters and digits of ASCII. */
  lemma LetDigCodes(c: char)
    ensures LetDig(c) <==>
              48 <= c as int <= 57 || 65 <= c as int <= 90 || 97 <= c as int <= 122
  {}

  /** What the label loop checks, position by position. */
  predicate LabelOk(lab: string) {
    && 0 < |lab| <= 63
    && forall i | 0 <= i < |lab| :: LetDig(lab[i]) || (lab[i] == '-' && i != 0 && i != |lab| - 1)
  }

  predicate Hostname(s: string) {
    && 0 < |s| <= 253
    && forall i | 0 <= i < |Split(s, '.')| :: LabelOk(Split(s, '.')[i])
  }

  /** The grammar: a letter or digit, or two of them around letters, digits and hyphens
      (section 2.1 of RFC 1123). */
  ghost predicate GrammarLabel(lab: string) {
    && |lab| <= 63
    && ((|lab| == 1 && LetDig(lab[0]))
        || (|lab| >= 2 && LetDig(lab[0]) && LetDig(lab[|lab|-1])
            && forall c | c in lab[1..|lab|-1] :: LetDig(c) || c == '-'))
  }

  ghost predicate GrammarName(s: string, labels: seq<string>) {
    && labels != []
    && (forall i | 0 <= i < |labels| :: GrammarLabel(labels[i]))
    && s == Join(labels, '.')
    && |s| <= 253
  }

  lemma LabelGrammar(lab: string)
    ensures LabelOk(lab) <==> GrammarLabel(lab)
  {
    if GrammarLabel(lab) && |lab| >= 2 {
      forall i | 0 <= i < |lab| ensures LetDig(lab[i]) || (lab[i] == '-' && i != 0 && i != |lab| - 1) {
        if 0 < i < |lab| - 1 {
          assert lab[1..|lab|-1][i-1] == lab[i];
        }
      }
    }
  }

  /** The loop accepts exactly the names of the grammar. */
  lemma HostnameGrammar(s: string)
    ensures Hostname(s) <==> exists labels :: GrammarName(s, labels)
  {
    if Hostname(s) {
      JoinSplit(s, '.');
      var labels := Split(s, '.');
      forall i | 0 <= i < |labels| ensures GrammarLabel(labels[i]) { LabelGrammar(labels[i]); }
      assert GrammarName(s, labels);
    }
    if labels :| GrammarName(s, labels) {
      forall i | 0 <= i < |labels| ensures LabelOk(labels[i]) && '.' !in labels[i] { LabelGrammar(labels[i]); }
      SplitJoin(labels, '.');
      assert |s| >= |labels[0]|;
    }
  }

  method ValidFqdn(s: string) returns (ok: bool)
    ensures ok <==> Hostname(s)
  {
    if |s| == 0 || |s| > 253 {
      return false;
    }
    var labels := Split(s, '.');
    for k := 0 to |labels|
      invariant forall j | 0 <= j < k :: LabelOk(labels[j])
    {
      var lab := labels[k];
      if lab == "" || |lab| > 63 {
        return false;
      }
      for i := 0 to |lab|
        invariant forall j | 0 <= j < i :: LetDig(lab[j]) || (lab[j] == '-' && j != 0 && j != |lab| - 1)
      {
        var c := lab[i];
        if !(LetDig(c) || (c == '-' && i != 0 && i != |lab| - 1)) {
          return false;
        }
      }
    }
    ok := true;
  }

  // ---- file names ----

  const CONF: string := ".conf"
  const PROOF_CONF: string := "_pickle_reload_proof.conf"

  function FileName(fqdn: string): string { fqdn + CONF }

  /** The temporary name an atomic write goes through. */
  function TempName(path: string): string { path + ".tmp" }

  /** filepath.Ext: from the last dot of the last path element. */
  function Ext(name: string): string {
    if name == "" || name[|name|-1] == '/' then ""
    else if name[|name|-1] == '.' then "."
    else
      var e := Ext(name[..|name|-1]);
      if e == "" then "" else e + [name[|name|-1]]
  }

  /** What nginx includes: every file of the directory with this extension. */
  predicate IsConf(name: string) { Ext(name) == CONF }

  predicate IsRouteName(name: string) { IsConf(name) && name != PROOF_CONF }

  /** strings.TrimSuffix(name, ".conf") on a name that has the suffix. */
  function Stem(name: string): string {
    if |name| >= 5 && name[|name|-5..] == CONF then name[..|name|-5] else name
  }

  lemma ExtGrows(front: string, c: char)
    requires c != '/' && c != '.'
    ensures Ext(front + [c]) == if Ext(front) == "" then "" else Ext(front) + [c]
    ensures Ext(front + ".") == "."
  {
    assert (front + [c])[..|front|] == front;
  }

  lemma {:induction false} ExtAppend(base: string, ext: string)
    requires '.' !in ext && '/' !in ext
    ensures Ext(base + "." + ext) == "." + ext
  {
    if ext == "" {
      ExtGrows(base, 'x');
      assert base + "." + ext == base + ".";
    } else {
      var e, c := ext[..|ext|-1], ext[|ext|-1];
      ExtAppend(base, e);
      ExtGrows(base + "." + e, c);
      assert base + "." + ext == (base + "." + e) + [c];
      assert "." + ext == ("." + e) + [c];
    }
  }

  lemma {:induction false} ExtIsSuffix(name: string)
    ensures |Ext(name)| <= |name| && name[|name|-|Ext(name)|..] == Ext(name)
  {
    if name != "" && name[|name|-1] != '/' && name[|name|-1] != '.' {
      var front := name[..|name|-1];
      ExtIsSuffix(front);
      var n := |Ext(front)|;
      if n > 0 {
        assert name[|name|-n-1..] == front[|front|-n..] + [name[|name|-1]];
      }
    }
  }

  /** A vhost's file name determines the vhost, and is a route name exactly when it is
      not the reserved one. */
  lemma FileNames(f: string, g: string)
    ensures FileName(f) == f + ".conf" && (FileName(f) == FileName(g) ==> f == g)
    ensures Stem(FileName(f)) == f
    ensures IsConf(FileName(f))
    ensures IsRouteName(FileName(f)) <==> FileName(f) != PROOF_CONF
  {
    assert FileName(f)[..|f|] == f && FileName(g)[..|g|] == g;
    assert FileName(f)[|f|..] == CONF;
    assert FileName(f) == f + "." + "conf";
    ExtAppend(f, "conf");
  }

  /** nginx includes the files whose names end in .conf. */
  lemma ConfMeans(name: string)
    ensures IsConf(name) <==> |name| >= 5 && name[|name|-5..] == ".conf"
  {
    ExtIsSuffix(name);
    if |name| >= 5 && name[|name|-5..] == ".conf" {
      var base := name[..|name|-5];
      assert name == base + "." + "conf";
      ExtAppend(base, "conf");
    }
  }

  /** Every route name is the file name of its stem. */
  lemma StemFileName(name: string)
    requires IsConf(name)
    ensures FileName(Stem(name)) == name
  {
    ExtIsSuffix(name);
    assert name == name[..|name|-5] + name[|name|-5..];
  }

  lemma HostnameStart(f: string)
    requires Hostname(f)
    ensures f != "" && LetDig(f[0])
  {
    JoinSplit(f, '.');
    assert LabelOk(Split(f, '.')[0]);
  }

  /** The reserved proof file is outside the route world: no hostname names it, and
      neither it nor a temporary name is ever a route. */
  lemma ReservedNames(f: string, path: string)
    requires Hostname(f)
    ensures IsRouteName(FileName(f)) && FileName(f) != PROOF_CONF
    ensures !IsRouteName("_pickle_reload_proof.conf") && IsConf(PROOF_CONF)
    ensures !IsConf(TempName(path))
    ensures FileName(f) != TempName(path)
  {
    FileNames(f, "");
    HostnameStart(f);
    assert FileName(f)[0] == f[0] && PROOF_CONF[0] == '_';
    FileNames("_pickle_reload_proof", "");
    assert PROOF_CONF == FileName("_pickle_reload_proof");
    assert TempName(path) == path + "." + "tmp";
    ExtAppend(path, "tmp");
    assert ("." + "tmp")[1] == 't' && CONF[1] == 'c';
  }
}
