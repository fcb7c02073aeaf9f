/**
 internal/command/enroll_server.go and internal/server/authorized.go: the lines
 of the authorized_keys file, as the list of its nonblank lines.
 */
module KeyLines {
  //////////////////////////////////////////////////////////////////////////////
  // Fields of a line
  //////////////////////////////////////////////////////////////////////////////

  /** unicode.IsSpace: white space as strings.Fields and strings.TrimSpace know it. */
  predicate Space(c: char)
  {
    var n := c as int;
    || 0x09 <= n <= 0x0D || n == 0x20 || n == 0x85 || n == 0xA0 || n == 0x1680 || 0x2000 <= n <= 0x200A
    || n == 0x2028 || n == 0x2029 || n == 0x202F || n == 0x205F || n == 0x3000
  }

  /** A nonempty string without white space. */
  predicate Word(w: string)
  {
    w != [] && forall i :: 0 <= i < |w| ==> !Space(w[i])
  }

  /** The longest prefix of s without white space. */
  function Head(s: string): (w: string)
    ensures |w| <= |s| && w == s[..|w|]
    ensures forall i :: 0 <= i < |w| ==> !Space(w[i])
    ensures |w| < |s| ==> Space(s[|w|])
  {
    if s == [] || Space(s[0]) then [] else [s[0]] + Head(s[1..])
  }

  /** strings.Fields; it ignores the white space that TrimSpace would remove. */
  function Fields(s: string): (fs: seq<string>)
    decreases |s|
  {
    if s == [] then []
    else if Space(s[0]) then Fields(s[1..])
    else
      var w := Head(s);
      [w] + Fields(s[|w|..])
  }

  lemma {:induction false} HeadOfWord(w: string, rest: string)
    requires forall i :: 0 <= i < |w| ==> !Space(w[i])
    requires rest == [] || Space(rest[0])
    ensures Head(w + rest) == w
  {
    if w == [] {
      assert w + rest == rest;
    } else {
      HeadOfWord(w[1..], rest);
      assert (w + rest)[1..] == w[1..] + rest;
    }
  }

  /** A word, a blank and the rest. */
  lemma FieldsOfWord(w: string, rest: string)
    requires Word(w)
    ensures Fields(w + " " + rest) == [w] + Fields(rest)
    ensures Fields(w) == [w]
  {
    var s := w + " " + rest;
    HeadOfWord(w, " " + rest);
    assert s == w + (" " + rest);
    assert s[|w|..] == " " + rest;
    assert (" " + rest)[1..] == rest;
    HeadOfWord(w, []);
    assert w + [] == w && w[|w|..] == [];
  }

  //////////////////////////////////////////////////////////////////////////////
  // The key blob of a line
  //////////////////////////////////////////////////////////////////////////////

  predicate StartsWith(s: string, p: string)
  {
    |p| <= |s| && s[..|p|] == p
  }

  /** authorizedKeyBlob: of a plain key line or of a managed line with options. */
  function BlobOf(line: string): (blob: string)
  {
    var fs := Fields(line);
    if |fs| < 2 then ""
    else if ',' in fs[0] || StartsWith(fs[0], "restrict") then (if |fs| < 3 then "" else fs[2])
    else fs[1]
  }

  lemma {:induction false} FieldsAreWords(s: string, k: nat)
    requires k < |Fields(s)|
    ensures Word(Fields(s)[k])
    decreases |s|
  {
    if Space(s[0]) {
      FieldsAreWords(s[1..], k);
    } else {
      var w := Head(s);
      if k > 0 {
        FieldsAreWords(s[|w|..], k - 1);
      } else {
        assert w != [];
      }
    }
  }

  lemma BlobIsWord(line: string)
    requires BlobOf(line) != ""
    ensures Word(BlobOf(line))
  {
    hide Fields, Word;
    var fs := Fields(line);
    if |fs| >= 2 {
      FieldsAreWords(line, 1);
    }
    if |fs| >= 3 {
      FieldsAreWords(line, 2);
    }
  }

  const MARKER: string := "warptweet-managed-client"

  /** A line rendered for a key: options, type, blob and marker. */
  function Rendered(options: string, keyType: string, blob: string): (line: string)
  {
    "restrict," + options + " " + (keyType + " " + (blob + " " + MARKER))
  }

  lemma MarkerWord()
    ensures Word(MARKER)
  {
    var m := MARKER;
    assert |m| == 24;
    assert forall i :: 0 <= i < |m| ==> !Space(m[i]);
  }

  /** The four fields of a rendered line. */
  lemma RenderedFields(options: string, keyType: string, blob: string)
    requires forall i :: 0 <= i < |options| ==> !Space(options[i])
    requires Word(keyType) && Word(blob)
    ensures Fields(Rendered(options, keyType, blob)) == ["restrict," + options, keyType, blob, MARKER]
  {
    hide Fields, Word, Space;
    var first := "restrict," + options;
    FirstWord(options);
    MarkerWord();
    FieldsOfWord(first, keyType + " " + (blob + " " + MARKER));
    FieldsOfWord(keyType, blob + " " + MARKER);
    FieldsOfWord(blob, MARKER);
    FieldsOfWord(MARKER, "");
  }

  /** The blob of a rendered line is the blob it was rendered for. */
  lemma BlobOfRendered(options: string, keyType: string, blob: string)
    requires forall i :: 0 <= i < |options| ==> !Space(options[i])
    requires Word(keyType) && Word(blob)
    ensures BlobOf(Rendered(options, keyType, blob)) == blob
  {
    hide Fields, Word, Space, Rendered;
    RenderedFields(options, keyType, blob);
    var first := "restrict," + options;
    assert first[8] == ',';
  }

  lemma FirstWord(options: string)
    requires forall i :: 0 <= i < |options| ==> !Space(options[i])
    ensures Word("restrict," + options)
  {
    var p := "restrict,";
    assert |p| == 9;
    assert forall i :: 0 <= i < |p| ==> !Space(p[i]);
  }

  /** A plain key line: the type, a blob and perhaps a comment. */
  predicate PlainKey(line: string, keyType: string)
  {
    |Fields(line)| >= 2 && Fields(line)[0] == keyType
  }

  /** The blob of a plain key line is its second field. */
  lemma BlobOfPlain(line: string, keyType: string)
    requires PlainKey(line, keyType) && ',' !in keyType && !StartsWith(keyType, "restrict")
    ensures BlobOf(line) == Fields(line)[1] && Word(BlobOf(line)) && BlobOf(line) != "" && line != ""
  {
    FieldsAreWords(line, 1);
  }

  //////////////////////////////////////////////////////////////////////////////
  // The file
  //////////////////////////////////////////////////////////////////////////////

  /** The lines whose blob is neither a nor b; an empty blob drops nothing. */
  function Without(lines: seq<string>, a: string, b: string): (r: seq<string>)
  {
    if lines == [] then []
    else
      var last := lines[|lines| - 1];
      var front := Without(lines[..|lines| - 1], a, b);
      if (a != "" && BlobOf(last) == a) || (b != "" && BlobOf(last) == b) then front else front + [last]
  }

  /** How often a blob is authorized. */
  function Count(lines: seq<string>, blob: string): (n: nat)
  {
    if lines == [] then 0
    else Count(lines[..|lines| - 1], blob) + (if BlobOf(lines[|lines| - 1]) == blob then 1 else 0)
  }

  lemma {:induction false} WithoutCount(lines: seq<string>, a: string, b: string, c: string)
    requires c != ""
    ensures Count(Without(lines, a, b), c) == if c == a || c == b then 0 else Count(lines, c)
  {
    hide BlobOf;
    if lines != [] {
      var front := lines[..|lines| - 1];
      WithoutCount(front, a, b, c);
      var w := Without(front, a, b);
      var last := lines[|lines| - 1];
      assert (w + [last])[..|w|] == w;
    }
  }

  /** Filtering again changes nothing, whatever was appended in between with one of the blobs. */
  lemma {:induction false} WithoutTwice(lines: seq<string>, a: string, b: string)
    ensures Without(Without(lines, a, b), a, b) == Without(lines, a, b)
  {
    hide BlobOf;
    if lines != [] {
      var front := lines[..|lines| - 1];
      WithoutTwice(front, a, b);
      var w := Without(front, a, b);
      var last := lines[|lines| - 1];
      assert (w + [last])[..|w|] == w;
    }
  }

  lemma WithoutAppended(lines: seq<string>, line: string, a: string, b: string)
    ensures Without(lines + [line], a, b)
            == if (a != "" && BlobOf(line) == a) || (b != "" && BlobOf(line) == b) then Without(lines, a, b)
               else Without(lines, a, b) + [line]
  {
    hide BlobOf;
    assert (lines + [line])[..|lines|] == lines;
  }

  lemma CountAppended(lines: seq<string>, line: string, blob: string)
    ensures Count(lines + [line], blob) == Count(lines, blob) + (if BlobOf(line) == blob then 1 else 0)
  {
    hide BlobOf;
    assert (lines + [line])[..|lines|] == lines;
  }

  /** Filtering keeps the order: two parts are filtered one after the other. */
  lemma {:induction false} WithoutJoined(x: seq<string>, y: seq<string>, a: string, b: string)
    ensures Without(x + y, a, b) == Without(x, a, b) + Without(y, a, b)
    decreases |y|
  {
    hide BlobOf;
    if y == [] {
      assert x + y == x;
    } else {
      var front := y[..|y| - 1];
      WithoutJoined(x, front, a, b);
      assert (x + y)[..|x + y| - 1] == x + front;
    }
  }

  /** A single line stays unless it has one of the blobs. */
  lemma WithoutOne(line: string, a: string, b: string)
    ensures Without([line], a, b)
            == if (a != "" && BlobOf(line) == a) || (b != "" && BlobOf(line) == b) then [] else [line]
  {
    hide BlobOf;
    assert [line][..0] == [];
  }

  /** The file after replaceAuthorizedKeyForPublicKey. */
  function Replaced(lines: seq<string>, oldKey: string, entry: string): (r: seq<string>)
  {
    Without(lines, BlobOf(oldKey), BlobOf(entry)) + [entry]
  }

  /** Replacing twice is replacing once. */
  lemma ReplacedTwice(lines: seq<string>, oldKey: string, entry: string)
    requires BlobOf(entry) != ""
    ensures Replaced(Replaced(lines, oldKey, entry), oldKey, entry) == Replaced(lines, oldKey, entry)
  {
    hide BlobOf;
    var a, b := BlobOf(oldKey), BlobOf(entry);
    WithoutAppended(Without(lines, a, b), entry, a, b);
    WithoutTwice(lines, a, b);
  }

  /** The new blob is authorized once, the old one no longer, every other one as often as before. */
  lemma ReplacedCount(lines: seq<string>, oldKey: string, entry: string, c: string)
    requires BlobOf(entry) != "" && c != ""
    ensures Count(Replaced(lines, oldKey, entry), c)
            == if c == BlobOf(entry) then 1 else if c == BlobOf(oldKey) then 0 else Count(lines, c)
  {
    hide BlobOf;
    var a, b := BlobOf(oldKey), BlobOf(entry);
    WithoutCount(lines, a, b, c);
    CountAppended(Without(lines, a, b), entry, c);
  }

  /** The file after appendAuthorizedKey. */
  function Appended(lines: seq<string>, entry: string): (r: seq<string>)
  {
    if BlobOf(entry) != "" && exists i :: 0 <= i < |lines| && BlobOf(lines[i]) == BlobOf(entry) then lines
    else lines + [entry]
  }

  /** The file after removeAuthorizedKeyForPublicKey. */
  function Removed(lines: seq<string>, key: string): (r: seq<string>)
  {
    Without(lines, BlobOf(key), "")
  }

  /** verifyAuthorizedKeyAbsent succeeds. */
  predicate Absent(lines: seq<string>, key: string)
  {
    BlobOf(key) != "" && forall i :: 0 <= i < |lines| ==> BlobOf(lines[i]) != BlobOf(key)
  }

  lemma {:induction false} RemovedAbsent(lines: seq<string>, key: string)
    ensures Absent(Removed(lines, key), key) <==> BlobOf(key) != ""
  {
    hide BlobOf;
    if lines != [] {
      var front := lines[..|lines| - 1];
      RemovedAbsent(front, key);
    }
  }

  /** Absent is to be authorized no time. */
  lemma {:induction false} AbsentIff(lines: seq<string>, key: string)
    requires BlobOf(key) != ""
    ensures Absent(lines, key) <==> Count(lines, BlobOf(key)) == 0
  {
    hide BlobOf;
    if lines != [] {
      var front := lines[..|lines| - 1];
      AbsentIff(front, key);
      assert forall i :: 0 <= i < |front| ==> front[i] == lines[i];
    }
  }

  /** An append adds the line at the end, and only if its blob is not there. */
  lemma AppendedExactly(lines: seq<string>, entry: string)
    requires BlobOf(entry) != ""
    ensures Appended(lines, entry) == if Count(lines, BlobOf(entry)) == 0 then lines + [entry] else lines
  {
    hide BlobOf, Count;
    AbsentIff(lines, entry);
  }

  /** After appendAuthorizedKey the key of the line is authorized. */
  lemma AppendedCount(lines: seq<string>, entry: string)
    requires BlobOf(entry) != ""
    ensures Count(Appended(lines, entry), BlobOf(entry)) >= 1
  {
    hide BlobOf, Count;
    AbsentIff(lines, entry);
    CountAppended(lines, entry, BlobOf(entry));
  }

  //////////////////////////////////////////////////////////////////////////////
  // The loops
  //////////////////////////////////////////////////////////////////////////////

  /** The filtering loop of replaceAuthorizedKeyForPublicKey, and its append. */
  method ReplaceLine(lines: seq<string>, oldKey: string, entry: string) returns (r: seq<string>)
    ensures r == Replaced(lines, oldKey, entry)
  {
    hide BlobOf;
    var oldBlob, newBlob := BlobOf(oldKey), BlobOf(entry);
    r := [];
    for i := 0 to |lines|
      invariant r == Without(lines[..i], oldBlob, newBlob)
    {
      assert lines[..i + 1][..i] == lines[..i];
      var blob := BlobOf(lines[i]);
      if (oldBlob != "" && blob == oldBlob) || (newBlob != "" && blob == newBlob) {
        continue;
      }
      r := r + [lines[i]];
    }
    assert lines[..|lines|] == lines;
    r := r + [entry];
  }

  /** The filtering loop of removeAuthorizedKeyForPublicKey. */
  method RemoveLine(lines: seq<string>, key: string) returns (r: seq<string>)
    ensures r == Removed(lines, key)
  {
    hide BlobOf;
    var blob := BlobOf(key);
    if blob == "" {
      NothingRemoved(lines);
      return lines;
    }
    r := [];
    for i := 0 to |lines|
      invariant r == Without(lines[..i], blob, "")
    {
      assert lines[..i + 1][..i] == lines[..i];
      if BlobOf(lines[i]) == blob {
        continue;
      }
      r := r + [lines[i]];
    }
    assert lines[..|lines|] == lines;
  }

  lemma {:induction false} NothingRemoved(lines: seq<string>)
    ensures Without(lines, "", "") == lines
  {
    hide BlobOf;
    if lines != [] {
      NothingRemoved(lines[..|lines| - 1]);
      assert lines == lines[..|lines| - 1] + [lines[|lines| - 1]];
    }
  }

  /** The search loop of appendAuthorizedKey, and its append. */
  method AppendLine(lines: seq<string>, entry: string) returns (r: seq<string>)
    ensures r == Appended(lines, entry)
  {
    hide BlobOf;
    var blob := BlobOf(entry);
    if blob != "" {
      for i := 0 to |lines|
        invariant forall j :: 0 <= j < i ==> BlobOf(lines[j]) != blob
      {
        if BlobOf(lines[i]) == blob {
          return lines;
        }
      }
    }
    return lines + [entry];
  }
}
