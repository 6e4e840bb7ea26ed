/** String helpers of EDAMannot.py: deriving identifiers from URIs with
    `str.replace(uri, "")`, wrapping URIs in angle brackets for SPARQL, and
    classifying EDAM identifiers by their prefix. */
module Ident {

  /** Namespace of EDAM concepts. */
  const EdamUri: string := "http://edamontology.org/"
  /** Namespace of bio.tools tools. */
  const BiotoolsUri: string := "https://bio.tools/"

  predicate StartsWith(s: string, prefix: string) {
    |prefix| <= |s| && s[..|prefix|] == prefix
  }

  /** `pat` occurs in `s` at position `i`. */
  predicate OccursAt(s: string, pat: string, i: nat) {
    i + |pat| <= |s| && s[i..i + |pat|] == pat
  }

  ghost predicate Occurs(s: string, pat: string) {
    exists i: nat :: OccursAt(s, pat, i)
  }

  /** Python's `s.replace(pat, "")`: a left-to-right scan that deletes every
      non-overlapping occurrence of `pat`, wherever it sits in `s`. An empty
      pattern leaves `s` as it is. */
  function RemoveAll(s: string, pat: string): (r: string)
    ensures |r| <= |s|
    decreases |s|
  {
    if pat == [] || |s| < |pat| then s
    else if s[..|pat|] == pat then RemoveAll(s[|pat|..], pat)
    else [s[0]] + RemoveAll(s[1..], pat)
  }

  /** A string in which `pat` does not occur comes back unchanged. */
  lemma {:induction false} RemoveAllAbsent(s: string, pat: string)
    requires !Occurs(s, pat)
    ensures RemoveAll(s, pat) == s
    decreases |s|
  {
    if pat != [] && |s| >= |pat| {
      assert !OccursAt(s, pat, 0);
      forall i: nat ensures !OccursAt(s[1..], pat, i) {
        if OccursAt(s[1..], pat, i) {
          assert s[1..][i..i + |pat|] == s[i + 1..i + 1 + |pat|];
          assert OccursAt(s, pat, i + 1);
        }
      }
      RemoveAllAbsent(s[1..], pat);
    }
  }

  /** A leading occurrence is deleted. */
  lemma RemoveAllLeading(pat: string, s: string)
    requires pat != []
    ensures RemoveAll(pat + s, pat) == RemoveAll(s, pat)
  {
    assert (pat + s)[..|pat|] == pat;
    assert (pat + s)[|pat|..] == s;
  }

  /** A first character that cannot start the pattern is kept. */
  lemma RemoveAllKeepsChar(c: char, s: string, pat: string)
    requires pat != [] && c != pat[0]
    ensures RemoveAll([c] + s, pat) == [c] + RemoveAll(s, pat)
  {
    if |[c] + s| >= |pat| {
      assert ([c] + s)[..|pat|][0] == c;
      assert ([c] + s)[1..] == s;
    } else {
      assert RemoveAll(s, pat) == s;
    }
  }

  /** An occurrence that is not at the start of the string is deleted too:
      the derivation of an identifier is not a prefix strip. */
  lemma RemoveAllInterior(c: char, s: string, pat: string)
    requires pat != [] && c != pat[0]
    ensures RemoveAll([c] + pat + s, pat) == [c] + RemoveAll(s, pat)
  {
    assert [c] + pat + s == [c] + (pat + s);
    RemoveAllKeepsChar(c, pat + s, pat);
    RemoveAllLeading(pat, s);
  }

  /** Deleting can join two halves into a fresh occurrence, so the result is
      not free of the pattern in general. */
  lemma RemoveAllCanLeaveOccurrence()
    ensures RemoveAll("aabb", "ab") == "ab"
  {
    assert "aabb"[..2][1] == 'a';
    assert "aabb"[1..] == "abb";
    assert "abb"[..2] == "ab";
    assert "abb"[2..] == "b";
  }

  /** Identifier of an EDAM concept, as in `conceptURI.replace(edamURI, "")`. */
  function ConceptIdent(uri: string): string {
    RemoveAll(uri, EdamUri)
  }

  /** Identifier of a tool, as in `toolURI.replace(biotoolsURI, "")`. */
  function ToolIdent(uri: string): string {
    RemoveAll(uri, BiotoolsUri)
  }

  /** Identifier of an entity in the hierarchy view:
      `entityURI.replace(edamURI, "").replace("edam:", "")`. */
  function EntityIdent(uri: string): string {
    RemoveAll(RemoveAll(uri, EdamUri), "edam:")
  }

  /** For a URI made of the EDAM namespace and a local name that does not
      contain the namespace again, the identifier is the local name. */
  lemma ConceptIdentOfEdamUri(local: string)
    requires !Occurs(local, EdamUri)
    ensures ConceptIdent(EdamUri + local) == local
  {
    RemoveAllLeading(EdamUri, local);
    RemoveAllAbsent(local, EdamUri);
  }

  /** Both spellings of an EDAM concept, full URI and `edam:` prefixed name,
      give the same entity identifier when the local name holds neither. */
  lemma EntityIdentOfBothSpellings(local: string)
    requires !Occurs(local, EdamUri) && !Occurs(local, "edam:")
    ensures EntityIdent(EdamUri + local) == local
    ensures EntityIdent("edam:" + local) == local
  {
    ConceptIdentOfEdamUri(local);
    RemoveAllAbsent(local, "edam:");
    RemoveAllLeading("edam:", local);
    assert !OccursAt("edam:" + local, EdamUri, 0) by {
      assert ("edam:" + local)[0] == 'e';
    }
    RemoveAllKeepsChar('e', "dam:" + local, EdamUri);
    assert "edam:" + local == ['e'] + ("dam:" + local);
    RemoveAllDamPrefix(local);
  }

  lemma RemoveAllDamPrefix(local: string)
    requires !Occurs(local, EdamUri)
    ensures RemoveAll("dam:" + local, EdamUri) == "dam:" + local
  {
    var s := "dam:" + local;
    assert "dam:" + local == ['d'] + ("am:" + local);
    assert "am:" + local == ['a'] + ("m:" + local);
    assert "m:" + local == ['m'] + (":" + local);
    assert ":" + local == [':'] + local;
    RemoveAllAbsent(local, EdamUri);
    RemoveAllKeepsChar(':', local, EdamUri);
    RemoveAllKeepsChar('m', ":" + local, EdamUri);
    RemoveAllKeepsChar('a', "m:" + local, EdamUri);
    RemoveAllKeepsChar('d', "am:" + local, EdamUri);
  }

  /** `"<" + uri + ">"` when the term starts with `http`, as done before a
      URI is pasted into a SPARQL `VALUES` clause; anything else (a prefixed
      name such as `edam:topic_0080`) is left as it is. */
  function WrapIri(term: string): (r: string) {
    if StartsWith(term, "http") then "<" + term + ">" else term
  }

  /** Wrapping is undone by dropping the first and last character, and a
      wrapped term is recognisable by its brackets. */
  lemma WrapIriInverse(term: string)
    ensures StartsWith(term, "http") ==>
      |WrapIri(term)| == |term| + 2 && WrapIri(term)[0] == '<' &&
      WrapIri(term)[|term| + 1] == '>' && WrapIri(term)[1..|term| + 1] == term
    ensures !StartsWith(term, "http") ==> WrapIri(term) == term
  {
  }

  /** A wrapped term no longer starts with `http`, so wrapping twice is the
      same as wrapping once. */
  lemma WrapIriIdempotent(term: string)
    ensures WrapIri(WrapIri(term)) == WrapIri(term)
  {
    if StartsWith(term, "http") {
      assert WrapIri(term)[0] == '<';
    }
  }

  /** Node categories read off an identifier's prefix. */
  datatype EntityType = Class | Topic | Operation | Data | Format

  /** Classification used by the hierarchy view: topics, operations, and
      everything else as a plain class. */
  function HierarchyEntityType(ident: string): (t: EntityType)
    ensures t != Data && t != Format
  {
    if StartsWith(ident, "topic_") then Topic
    else if StartsWith(ident, "operation_") then Operation
    else Class
  }

  /** Classification used for the neighbours of an entity, which also
      recognises data and format identifiers. */
  function NeighborType(ident: string): (t: EntityType) {
    if StartsWith(ident, "topic_") then Topic
    else if StartsWith(ident, "operation_") then Operation
    else if StartsWith(ident, "data_") then Data
    else if StartsWith(ident, "format_") then Format
    else Class
  }

  /** The four prefixes exclude one another, so the order of the tests does
      not matter: each category holds exactly the identifiers with its
      prefix. */
  lemma NeighborTypeByPrefix(ident: string)
    ensures NeighborType(ident) == Topic <==> StartsWith(ident, "topic_")
    ensures NeighborType(ident) == Operation <==> StartsWith(ident, "operation_")
    ensures NeighborType(ident) == Data <==> StartsWith(ident, "data_")
    ensures NeighborType(ident) == Format <==> StartsWith(ident, "format_")
  {
    if StartsWith(ident, "operation_") { assert ident[0] == 'o'; }
    if StartsWith(ident, "data_") { assert ident[0] == 'd'; }
    if StartsWith(ident, "format_") { assert ident[0] == 'f'; }
    if StartsWith(ident, "topic_") { assert ident[0] == 't'; }
  }

  /** The two classifications agree, except that the hierarchy view files
      data and format identifiers as plain classes. */
  lemma HierarchyTypeAgreesWithNeighborType(ident: string)
    ensures HierarchyEntityType(ident) ==
      (match NeighborType(ident) case Data => Class case Format => Class case t => t)
  {
  }
}
