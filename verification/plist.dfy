/**
 * The manifest `AppSkeletonGenerator.createInfoPlist` writes: a fixed
 * property-list template with the app name substituted into four fields. The
 * Swift multi-line string literal strips the indentation of its closing
 * delimiter, so the text is the fourteen lines below joined by newlines, with
 * no newline after the last.
 *
 * To say what the document declares, a small reader stands beside the
 * template: it splits the text into lines and finds the `<string>` line that
 * follows a `<key>` line.
 */
module Plist {
  import opened Wrappers

  /** The reverse-domain prefix of the bundle identifier. */
  const IdentifierPrefix: string := "com.leviouwendijk."

  const XmlDeclaration: string := "<?xml version=\"1.0\" encoding=\"UTF-8\"?>"
  const DoctypeOpen: string := "<!DOCTYPE plist PUBLIC "
  const DoctypeName: string := "\"-//Apple//DTD PLIST 1.0//EN\" "
  const DoctypeHost: string := "\"http://www.apple.com/DTDs/"
  const DoctypeFile: string := "PropertyList-1.0.dtd\">"
  const Doctype: string := DoctypeOpen + DoctypeName + DoctypeHost + DoctypeFile
  const PlistOpen: string := "<plist version=\"1.0\">"
  const PlistClose: string := "</plist>"
  const DictOpen: string := "<dict>"
  const DictClose: string := "</dict>"

  const KeyOpen: string := "    <key>"
  const KeyClose: string := "</key>"
  const StringOpen: string := "    <string>"
  const StringClose: string := "</string>"

  /** ASCII lower-casing of one character. */
  function LowerChar(c: char): char
  {
    if 'A' <= c <= 'Z' then (c as int + 32) as char else c
  }

  /** `String.lowercased()`, restricted to ASCII letters. */
  function Lowercased(s: string): (r: string)
    ensures |r| == |s|
    ensures forall i :: 0 <= i < |s| ==> r[i] == LowerChar(s[i])
    ensures forall i :: 0 <= i < |s| ==> (r[i] == '\n' <==> s[i] == '\n')
  {
    seq(|s|, i requires 0 <= i < |s| => LowerChar(s[i]))
  }

  function KeyLine(key: string): string
  {
    KeyOpen + key + KeyClose
  }

  function StringLine(value: string): string
  {
    StringOpen + value + StringClose
  }

  /** The lines of the template, with `appName` substituted. */
  function PlistLines(appName: string): seq<string>
  {
    [ XmlDeclaration,
      Doctype,
      PlistOpen,
      DictOpen,
      KeyLine("CFBundleName"),
      StringLine(appName),
      KeyLine("CFBundleIdentifier"),
      StringLine(IdentifierPrefix + Lowercased(appName)),
      KeyLine("CFBundleVersion"),
      StringLine("1.0"),
      KeyLine("CFBundleExecutable"),
      StringLine(appName),
      DictClose,
      PlistClose ]
  }

  /** Lines joined by newlines, none after the last. */
  function JoinLines(lines: seq<string>): string
  {
    if lines == [] then ""
    else if |lines| == 1 then lines[0]
    else lines[0] + "\n" + JoinLines(lines[1..])
  }

  /** `plistTemplate`, the text written to `Contents/info.plist`. */
  function PlistText(appName: string): string
  {
    JoinLines(PlistLines(appName))
  }

  /** The text cut at every newline (`components(separatedBy: "\n")`). */
  function SplitLines(s: string): (r: seq<string>)
    ensures |r| >= 1
    decreases |s|
  {
    if s == [] then [""]
    else
      var rest := SplitLines(s[1..]);
      if s[0] == '\n' then [""] + rest else [[s[0]] + rest[0]] + rest[1..]
  }

  /** The value of a `<string>` line, if the line is one. */
  function StringValue(line: string): Option<string>
  {
    if |line| >= |StringOpen| + |StringClose|
       && line[..|StringOpen|] == StringOpen
       && line[|line| - |StringClose|..] == StringClose
    then Some(line[|StringOpen|..|line| - |StringClose|])
    else None
  }

  /** The value declared for `key`: the `<string>` line after the first matching `<key>` line. */
  function Lookup(lines: seq<string>, key: string): Option<string>
  {
    if |lines| < 2 then None
    else if lines[0] == KeyLine(key) then StringValue(lines[1])
    else Lookup(lines[1..], key)
  }

  lemma {:induction false} SplitSingleLine(a: string)
    requires '\n' !in a
    ensures SplitLines(a) == [a]
    decreases |a|
  {
    if a != [] {
      assert '\n' !in a[1..] by {
        forall i | 0 <= i < |a[1..]| ensures a[1..][i] != '\n' {
          assert a[1..][i] == a[i + 1];
        }
      }
      SplitSingleLine(a[1..]);
      assert [a[0]] + a[1..] == a;
    }
  }

  lemma {:induction false} SplitAfterLine(a: string, b: string)
    requires '\n' !in a
    ensures SplitLines(a + "\n" + b) == [a] + SplitLines(b)
    decreases |a|
  {
    var s := a + "\n" + b;
    if a == [] {
      assert s[1..] == b;
    } else {
      assert s[1..] == a[1..] + "\n" + b;
      assert '\n' !in a[1..] by {
        forall i | 0 <= i < |a[1..]| ensures a[1..][i] != '\n' {
          assert a[1..][i] == a[i + 1];
        }
      }
      SplitAfterLine(a[1..], b);
      assert [a[0]] + a[1..] == a;
    }
  }

  /** Splitting undoes joining, for lines without newlines. */
  lemma {:induction false} SplitJoin(lines: seq<string>)
    requires |lines| >= 1
    requires forall i :: 0 <= i < |lines| ==> '\n' !in lines[i]
    ensures SplitLines(JoinLines(lines)) == lines
    decreases |lines|
  {
    if |lines| == 1 {
      SplitSingleLine(lines[0]);
    } else {
      SplitJoin(lines[1..]);
      SplitAfterLine(lines[0], JoinLines(lines[1..]));
      assert lines == [lines[0]] + lines[1..];
    }
  }

  lemma StringLineValue(v: string)
    ensures StringValue(StringLine(v)) == Some(v)
  {
    var line := StringLine(v);
    assert line[..|StringOpen|] == StringOpen;
    assert line[|line| - |StringClose|..] == StringClose;
    assert line[|StringOpen|..|line| - |StringClose|] == v;
  }

  lemma StringLineIsNoKeyLine(v: string, key: string)
    ensures StringLine(v) != KeyLine(key)
  {
    assert StringLine(v)[5] == 's' && KeyLine(key)[5] == 'k';
  }

  lemma NoNewlineInPlistLines(appName: string)
    requires '\n' !in appName
    ensures forall i :: 0 <= i < |PlistLines(appName)| ==> '\n' !in PlistLines(appName)[i]
  {
    var lines := PlistLines(appName);
    var id := IdentifierPrefix + Lowercased(appName);
    XmlDeclarationHasNoNewline();
    DoctypeHasNoNewline();
    FrameLinesHaveNoNewline();
    KeyLinesHaveNoNewline();
    IdentifierPrefixHasNoNewline();
    assert '\n' !in id;
    StringLineHasNoNewline(appName);
    StringLineHasNoNewline(id);
    StringLineHasNoNewline("1.0");
    forall i | 0 <= i < |lines| ensures '\n' !in lines[i] {
      if i < 4 || i >= 12 {
      } else if i % 2 == 0 {
      } else {
      }
    }
  }

  // One literal per lemma keeps each proof small.

  lemma XmlDeclarationHasNoNewline() ensures '\n' !in XmlDeclaration {}
  lemma DoctypeOpenHasNoNewline() ensures '\n' !in DoctypeOpen {}
  lemma DoctypeNameHasNoNewline() ensures '\n' !in DoctypeName {}
  lemma DoctypeHostHasNoNewline() ensures '\n' !in DoctypeHost {}
  lemma DoctypeFileHasNoNewline() ensures '\n' !in DoctypeFile {}
  lemma PlistOpenHasNoNewline() ensures '\n' !in PlistOpen {}
  lemma PlistCloseHasNoNewline() ensures '\n' !in PlistClose {}
  lemma DictOpenHasNoNewline() ensures '\n' !in DictOpen {}
  lemma DictCloseHasNoNewline() ensures '\n' !in DictClose {}
  lemma KeyOpenHasNoNewline() ensures '\n' !in KeyOpen {}
  lemma KeyCloseHasNoNewline() ensures '\n' !in KeyClose {}
  lemma StringOpenHasNoNewline() ensures '\n' !in StringOpen {}
  lemma StringCloseHasNoNewline() ensures '\n' !in StringClose {}
  lemma IdentifierPrefixHasNoNewline() ensures '\n' !in IdentifierPrefix {}
  lemma NameKeyHasNoNewline() ensures '\n' !in "CFBundleName" {}
  lemma IdentifierKeyHasNoNewline() ensures '\n' !in "CFBundleIdentifier" {}
  lemma VersionKeyHasNoNewline() ensures '\n' !in "CFBundleVersion" {}
  lemma ExecutableKeyHasNoNewline() ensures '\n' !in "CFBundleExecutable" {}
  lemma VersionHasNoNewline() ensures '\n' !in "1.0" {}

  lemma DoctypeHasNoNewline()
    ensures '\n' !in Doctype
  {
    DoctypeOpenHasNoNewline();
    DoctypeNameHasNoNewline();
    DoctypeHostHasNoNewline();
    DoctypeFileHasNoNewline();
  }

  lemma FrameLinesHaveNoNewline()
    ensures '\n' !in PlistOpen && '\n' !in DictOpen && '\n' !in DictClose && '\n' !in PlistClose
  {
    PlistOpenHasNoNewline();
    PlistCloseHasNoNewline();
    DictOpenHasNoNewline();
    DictCloseHasNoNewline();
  }

  lemma KeyLinesHaveNoNewline()
    ensures '\n' !in KeyLine("CFBundleName") && '\n' !in KeyLine("CFBundleIdentifier")
    ensures '\n' !in KeyLine("CFBundleVersion") && '\n' !in KeyLine("CFBundleExecutable")
  {
    KeyOpenHasNoNewline();
    KeyCloseHasNoNewline();
    NameKeyHasNoNewline();
    IdentifierKeyHasNoNewline();
    VersionKeyHasNoNewline();
    ExecutableKeyHasNoNewline();
  }

  lemma StringLineHasNoNewline(v: string)
    requires '\n' !in v
    ensures '\n' !in StringLine(v)
  {
    StringOpenHasNoNewline();
    StringCloseHasNoNewline();
  }

  /** Lines that are not the key line do not change what `Lookup` finds. */
  lemma {:induction false} LookupSkip(lines: seq<string>, key: string, n: nat)
    requires n <= |lines|
    requires forall i :: 0 <= i < n ==> lines[i] != KeyLine(key)
    ensures Lookup(lines, key) == Lookup(lines[n..], key)
    decreases n
  {
    if n == 0 {
      assert lines[0..] == lines;
    } else if |lines| >= 2 {
      LookupSkip(lines[1..], key, n - 1);
      assert lines[1..][n - 1..] == lines[n..];
    }
  }

  /**
   * The written manifest declares `CFBundleName` and `CFBundleExecutable` as
   * the app name, `CFBundleIdentifier` as `com.leviouwendijk.` followed by the
   * lower-cased app name, and `CFBundleVersion` as `1.0`. The app name comes
   * from `readLine()`, which never includes a newline.
   */
  lemma PlistFields(appName: string)
    requires '\n' !in appName
    ensures Lookup(SplitLines(PlistText(appName)), "CFBundleName") == Some(appName)
    ensures Lookup(SplitLines(PlistText(appName)), "CFBundleIdentifier") == Some(IdentifierPrefix + Lowercased(appName))
    ensures Lookup(SplitLines(PlistText(appName)), "CFBundleVersion") == Some("1.0")
    ensures Lookup(SplitLines(PlistText(appName)), "CFBundleExecutable") == Some(appName)
  {
    NoNewlineInPlistLines(appName);
    SplitJoin(PlistLines(appName));
    NameField(appName);
    IdentifierField(appName);
    VersionField(appName);
    ExecutableField(appName);
  }

  /** The four lines before the first key are not key lines. */
  lemma HeaderIsNoKeyLine(appName: string, key: string)
    ensures forall i :: 0 <= i < 4 ==> PlistLines(appName)[i] != KeyLine(key)
  {
    forall i | 0 <= i < 4
      ensures PlistLines(appName)[i] != KeyLine(key)
    {
      assert PlistLines(appName)[i][0] == '<' && KeyLine(key)[0] == ' ';
    }
  }

  /** Key lines whose keys differ at the ninth character differ. */
  lemma KeyLinesDiffer(a: string, b: string)
    requires |a| > 8 && |b| > 8 && a[8] != b[8]
    ensures KeyLine(a) != KeyLine(b)
  {
    assert KeyLine(a)[17] == a[8] && KeyLine(b)[17] == b[8];
  }

  /** `CFBundleName` is declared on the first key line. */
  lemma NameField(appName: string)
    ensures Lookup(PlistLines(appName), "CFBundleName") == Some(appName)
  {
    HeaderIsNoKeyLine(appName, "CFBundleName");
    LookupSkip(PlistLines(appName), "CFBundleName", 4);
    StringLineValue(appName);
  }

  /** `CFBundleIdentifier` is declared on the second key line. */
  lemma IdentifierField(appName: string)
    ensures Lookup(PlistLines(appName), "CFBundleIdentifier") == Some(IdentifierPrefix + Lowercased(appName))
  {
    var key := "CFBundleIdentifier";
    HeaderIsNoKeyLine(appName, key);
    KeyLinesDiffer("CFBundleName", key);
    StringLineIsNoKeyLine(appName, key);
    LookupSkip(PlistLines(appName), key, 6);
    StringLineValue(IdentifierPrefix + Lowercased(appName));
  }

  /** `CFBundleVersion` is declared on the third key line. */
  lemma VersionField(appName: string)
    ensures Lookup(PlistLines(appName), "CFBundleVersion") == Some("1.0")
  {
    var key := "CFBundleVersion";
    HeaderIsNoKeyLine(appName, key);
    KeyLinesDiffer("CFBundleName", key);
    KeyLinesDiffer("CFBundleIdentifier", key);
    StringLineIsNoKeyLine(appName, key);
    StringLineIsNoKeyLine(IdentifierPrefix + Lowercased(appName), key);
    LookupSkip(PlistLines(appName), key, 8);
    StringLineValue("1.0");
  }

  /** `CFBundleExecutable` is declared on the fourth key line. */
  lemma ExecutableField(appName: string)
    ensures Lookup(PlistLines(appName), "CFBundleExecutable") == Some(appName)
  {
    var key := "CFBundleExecutable";
    HeaderIsNoKeyLine(appName, key);
    KeyLinesDiffer("CFBundleName", key);
    KeyLinesDiffer("CFBundleIdentifier", key);
    KeyLinesDiffer("CFBundleVersion", key);
    StringLineIsNoKeyLine(appName, key);
    StringLineIsNoKeyLine(IdentifierPrefix + Lowercased(appName), key);
    StringLineIsNoKeyLine("1.0", key);
    LookupSkip(PlistLines(appName), key, 10);
    StringLineValue(appName);
  }
}
