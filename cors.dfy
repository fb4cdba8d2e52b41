/**
 * The cross-origin policy: the origins handed to the CORS middleware as `allow_origins`,
 * a fixed set of local development origins joined with the origins the
 * operator configures through FRONTEND_ORIGIN and PUBLIC_URL.
 */
module Cors {
  import opened Wrappers
  import opened PyStr
  import opened Config

  /** The Vite dev server's address, both schemes, both loopback spellings. */
  const DefaultOrigins: set<string> := {
    "http://localhost:5173",
    "http://127.0.0.1:5173",
    "https://localhost:5173",
    "https://127.0.0.1:5173"
  }

  /** What a list of comma-separated pieces contributes: each piece stripped
      of surrounding whitespace, pieces that strip to "" dropped. */
  function ListedOrigins(pieces: seq<string>): set<string>
  {
    set piece | piece in pieces && Strip(piece) != "" :: Strip(piece)
  }

  /** Taking one more piece adds its stripped form, unless that is "". */
  lemma ListedOriginsStep(pieces: seq<string>, i: nat)
    requires i < |pieces|
    ensures ListedOrigins(pieces[..i + 1]) ==
              ListedOrigins(pieces[..i]) + (if Strip(pieces[i]) != "" then {Strip(pieces[i])} else {})
  {
    assert pieces[..i + 1] == pieces[..i] + [pieces[i]];
  }

  /** The origins named by a FRONTEND_ORIGIN value. */
  function FrontendOrigins(list: string): set<string>
  {
    ListedOrigins(Split(list, ','))
  }

  /** The operator-configured origins (`configured_origins`). */
  function ConfiguredOrigins(s: Settings): set<string>
  {
    (if Truthy(s.frontendOrigin) then FrontendOrigins(s.frontendOrigin.value) else {})
    + (if Truthy(s.publicUrl) then {RStripChar(s.publicUrl.value, '/')} else {})
  }

  /** The origins handed to the CORS middleware (`allow_origins`). */
  function AllowedOrigins(s: Settings): (allow: set<string>)
    ensures DefaultOrigins <= allow
  {
    DefaultOrigins + ConfiguredOrigins(s)
  }

  /** Builds the origin set the way the module does at import time: an empty
      set, updated with each non-empty stripped piece of FRONTEND_ORIGIN, then
      the PUBLIC_URL without its trailing slashes, finally joined with the
      defaults. */
  method ComputeAllowedOrigins(s: Settings) returns (allow: set<string>)
    ensures allow == AllowedOrigins(s)
  {
    var configured: set<string> := {};
    if Truthy(s.frontendOrigin) {
      var pieces := Split(s.frontendOrigin.value, ',');
      var i := 0;
      while i < |pieces|
        invariant 0 <= i <= |pieces|
        invariant configured == ListedOrigins(pieces[..i])
      {
        var origin := Strip(pieces[i]);
        if origin != "" {
          configured := configured + {origin};
        }
        ListedOriginsStep(pieces, i);
        i := i + 1;
      }
      assert pieces[..|pieces|] == pieces;
    }
    if Truthy(s.publicUrl) {
      configured := configured + {RStripChar(s.publicUrl.value, '/')};
    }
    allow := DefaultOrigins + configured;
  }

  /** The whole policy: the defaults, the listed FRONTEND_ORIGIN pieces, the
      PUBLIC_URL without trailing slashes, and nothing else. */
  lemma AllowedOriginsMembers(s: Settings, o: string)
    ensures o in AllowedOrigins(s) <==>
              || o in DefaultOrigins
              || (Truthy(s.frontendOrigin) && o != "" &&
                  exists piece :: piece in Split(s.frontendOrigin.value, ',') && Strip(piece) == o)
              || (Truthy(s.publicUrl) && o == RStripChar(s.publicUrl.value, '/'))
  {
  }

  /** With neither FRONTEND_ORIGIN nor PUBLIC_URL set (or both empty), only
      the defaults are admitted. */
  lemma NoOverridesGiveDefaults(s: Settings)
    requires !Truthy(s.frontendOrigin) && !Truthy(s.publicUrl)
    ensures AllowedOrigins(s) == DefaultOrigins
  {
  }

  /** Every origin taken from FRONTEND_ORIGIN is non-empty, already in
      stripped form (no surrounding whitespace) and holds no comma. */
  lemma FrontendOriginsAreClean(list: string, o: string)
    requires o in FrontendOrigins(list)
    ensures o != "" && Strip(o) == o
    ensures !IsSpace(o[0]) && !IsSpace(o[|o| - 1])
    ensures ',' !in o
  {
  }

  /** A whitespace-only piece between two commas contributes nothing, so
      `"a, ,b"` and `"a,,b"` admit the same origins as `"a,b"`. */
  lemma {:induction false} BlankPieceAddsNothing(x: string, w: string, y: string)
    requires AllSpace(w)
    ensures FrontendOrigins(x + "," + w + "," + y) == FrontendOrigins(x + "," + y)
  {
    assert x + "," + w + "," + y == x + [','] + (w + [','] + y);
    assert x + "," + y == x + [','] + y;
    SplitAtSeparator(x, ',', w + [','] + y);
    SplitAtSeparator(w, ',', y);
    SplitAtSeparator(x, ',', y);
    NoSeparatorIsOnePiece(w, ',');
    assert Strip(w) == "";
    var before, after := Split(x, ','), Split(y, ',');
    assert Split(x + "," + w + "," + y, ',') == before + [w] + after;
    assert Split(x + "," + y, ',') == before + after;
  }

  /** A single origin without commas or surrounding whitespace is admitted
      verbatim; in particular a trailing `/` in FRONTEND_ORIGIN is kept. */
  lemma SingleListedOrigin(a: string)
    requires a != "" && !IsSpace(a[0]) && !IsSpace(a[|a| - 1]) && ',' !in a
    ensures FrontendOrigins(a) == {a}
  {
    NoSeparatorIsOnePiece(a, ',');
    assert LStrip(a) == a;
    assert RStrip(a) == a;
    assert Strip(a) == a;
    assert Split(a, ',') == [a];
    assert forall piece :: piece in [a] <==> piece == a;
  }

  /** A trailing comma contributes nothing. */
  lemma {:induction false} TrailingCommaAddsNothing(x: string)
    ensures FrontendOrigins(x + ",") == FrontendOrigins(x)
  {
    SplitAtSeparator(x, ',', "");
    assert x + [','] + "" == x + ",";
    assert Split(x + ",", ',') == Split(x, ',') + [""];
  }

  /** PUBLIC_URL, when set and non-empty, is admitted with every trailing `/`
      removed; what is removed is slashes only, and what is admitted does not
      end in `/`. */
  lemma PublicUrlAdmitted(s: Settings)
    requires Truthy(s.publicUrl)
    ensures var u := RStripChar(s.publicUrl.value, '/');
      && u in AllowedOrigins(s)
      && (u == "" || u[|u| - 1] != '/')
      && s.publicUrl.value == u + s.publicUrl.value[|u|..]
      && forall i :: |u| <= i < |s.publicUrl.value| ==> s.publicUrl.value[i] == '/'
  {
    var u := RStripChar(s.publicUrl.value, '/');
    assert s.publicUrl.value == u + s.publicUrl.value[|u|..];
  }

  /** Two comma-separated origins padded with spaces, `" a , b "`, are
      admitted trimmed beside the defaults, and nothing else is. */
  lemma TwoPaddedOrigins(a: string, b: string)
    requires a != "" && !IsSpace(a[0]) && !IsSpace(a[|a| - 1]) && ',' !in a
    requires b != "" && !IsSpace(b[0]) && !IsSpace(b[|b| - 1]) && ',' !in b
    ensures AllowedOrigins(DefaultSettings.(frontendOrigin := Some(" " + a + " , " + b + " ")))
            == DefaultOrigins + {a, b}
  {
    PaddedPairOrigins(a, b);
  }

  /** The FRONTEND_ORIGIN part of the lemma above. */
  lemma PaddedPairOrigins(a: string, b: string)
    requires a != "" && !IsSpace(a[0]) && !IsSpace(a[|a| - 1]) && ',' !in a
    requires b != "" && !IsSpace(b[0]) && !IsSpace(b[|b| - 1]) && ',' !in b
    ensures FrontendOrigins(" " + a + " , " + b + " ") == {a, b}
  {
    var pa, pb := [' '] + a + [' '], [' '] + b + [' '];
    SplitPaddedPair(a, b);
    StripSpacePadding(a);
    StripSpacePadding(b);
    PairOrigins(pa, pb);
  }

  /** A two-piece list admits the two stripped pieces. */
  lemma PairOrigins(pa: string, pb: string)
    requires Strip(pa) != "" && Strip(pb) != ""
    ensures ListedOrigins([pa, pb]) == {Strip(pa), Strip(pb)}
  {
    assert forall piece :: piece in [pa, pb] <==> piece == pa || piece == pb;
  }

  /** `" a , b "` splits into the two padded pieces. */
  lemma SplitPaddedPair(a: string, b: string)
    requires ',' !in a && ',' !in b
    ensures Split(" " + a + " , " + b + " ", ',') == [[' '] + a + [' '], [' '] + b + [' ']]
  {
    PairShape(a, b);
    var pa, pb := Padded(a), Padded(b);
    SplitAtSeparator(pa, ',', pb);
    NoSeparatorIsOnePiece(pa, ',');
    NoSeparatorIsOnePiece(pb, ',');
  }

  /** `" a , b "` is two padded pieces around one comma. */
  lemma PairShape(a: string, b: string)
    requires ',' !in a && ',' !in b
    ensures " " + a + " , " + b + " " == Padded(a) + [','] + Padded(b)
  {
  }

  /** `[' '] + t + [' ']`, with the facts the split above needs. */
  function Padded(t: string): (p: string)
    requires ',' !in t
    ensures p == [' '] + t + [' '] && ',' !in p
  {
    [' '] + t + [' ']
  }

  /** A trailing slash on PUBLIC_URL is dropped: the bare URL is admitted and
      the slashed one is not. */
  lemma PublicUrlTrailingSlash()
    ensures "https://x.com" in AllowedOrigins(DefaultSettings.(publicUrl := Some("https://x.com/")))
    ensures "https://x.com/" !in AllowedOrigins(DefaultSettings.(publicUrl := Some("https://x.com/")))
  {
    assert RStripChar("https://x.com/", '/') == "https://x.com";
  }

  /** A PUBLIC_URL made only of slashes puts the empty string in the set. */
  lemma SlashesOnlyPublicUrlAdmitsEmpty(pu: string)
    requires pu != "" && forall i :: 0 <= i < |pu| ==> pu[i] == '/'
    ensures "" in AllowedOrigins(DefaultSettings.(publicUrl := Some(pu)))
  {
    RStripCharAll(pu, '/');
  }
}
