/** The request checks shared by the HTTP services (services/common.py):
    filtering a configuration dictionary against a dataclass's fields,
    treating a missing configuration as empty, and the content-type and
    empty-payload checks on an uploaded WAV file. */
module ServicesCommon {
  import opened Errors
  import opened Text

  /** A configuration dictionary: its items in insertion order. */
  type Config<V> = seq<(string, V)>

  /** What `is_dataclass`, `fields` and `__name__` report about the
      configuration class. */
  datatype ConfigClass = ConfigClass(name: string, isDataclass: bool, fields: set<string>)

  /** `WAV_MEDIA_TYPES` */
  const WavMediaTypes: set<string> := {"audio/wav", "audio/x-wav", "application/octet-stream"}

  /** Python's `<=` on strings: lexicographic by code point, a proper
      prefix sorting first. */
  predicate LessEq(a: string, b: string)
    decreases |a|
  {
    a == [] || (b != [] && (a[0] < b[0] || (a[0] == b[0] && LessEq(a[1..], b[1..]))))
  }

  lemma {:induction false} LessEqTotal(a: string, b: string)
    ensures LessEq(a, b) || LessEq(b, a)
    decreases |a|
  {
    if a != [] && b != [] && a[0] == b[0] {
      LessEqTotal(a[1..], b[1..]);
    }
  }

  lemma {:induction false} LessEqTrans(a: string, b: string, c: string)
    requires LessEq(a, b) && LessEq(b, c)
    ensures LessEq(a, c)
    decreases |a|
  {
    if a != [] && a[0] == b[0] && b[0] == c[0] {
      LessEqTrans(a[1..], b[1..], c[1..]);
    }
  }

  lemma {:induction false} LessEqAntisym(a: string, b: string)
    requires LessEq(a, b) && LessEq(b, a)
    ensures a == b
    decreases |a|
  {
    if a != [] {
      LessEqAntisym(a[1..], b[1..]);
      assert a == [a[0]] + a[1..] && b == [b[0]] + b[1..];
    }
  }

  predicate Sorted(xs: seq<string>) {
    forall i, j :: 0 <= i < j < |xs| ==> LessEq(xs[i], xs[j])
  }

  /** Insert `x` into a sorted list after every item it does not precede. */
  function Insert(x: string, xs: seq<string>): (r: seq<string>)
    ensures multiset(r) == multiset(xs) + multiset{x}
    ensures Sorted(xs) ==> Sorted(r)
  {
    if xs == [] then [x]
    else if LessEq(x, xs[0]) then
      InsertFront(x, xs);
      [x] + xs
    else
      var rest := Insert(x, xs[1..]);
      assert xs == [xs[0]] + xs[1..];
      InsertBehind(x, xs, rest);
      [xs[0]] + rest
  }

  lemma InsertFront(x: string, xs: seq<string>)
    requires xs != [] && LessEq(x, xs[0])
    ensures Sorted(xs) ==> Sorted([x] + xs)
  {
    if Sorted(xs) {
      var r := [x] + xs;
      forall i, j | 0 <= i < j < |r|
        ensures LessEq(r[i], r[j])
      {
        if i == 0 && j > 1 {
          LessEqTrans(x, xs[0], xs[j - 1]);
        }
      }
    }
  }

  lemma InsertBehind(x: string, xs: seq<string>, rest: seq<string>)
    requires xs != [] && !LessEq(x, xs[0])
    requires multiset(rest) == multiset(xs[1..]) + multiset{x}
    requires Sorted(xs[1..]) ==> Sorted(rest)
    ensures Sorted(xs) ==> Sorted([xs[0]] + rest)
  {
    if Sorted(xs) {
      LessEqTotal(x, xs[0]);
      assert Sorted(xs[1..]) by {
        forall i, j | 0 <= i < j < |xs| - 1
          ensures LessEq(xs[1..][i], xs[1..][j])
        {
          assert xs[1..][i] == xs[i + 1] && xs[1..][j] == xs[j + 1];
        }
      }
      var r := [xs[0]] + rest;
      forall i, j | 0 <= i < j < |r|
        ensures LessEq(r[i], r[j])
      {
        if i == 0 {
          var y := rest[j - 1];
          assert y in multiset(rest);
          if y != x {
            assert y in multiset(xs[1..]);
            var k :| 1 <= k < |xs| && xs[k] == y by {
              assert y in xs[1..];
              var k' :| 0 <= k' < |xs[1..]| && xs[1..][k'] == y;
              assert xs[k' + 1] == y;
            }
          }
        } else {
          assert r[i] == rest[i - 1] && r[j] == rest[j - 1];
        }
      }
    }
  }

  /** `sorted(xs)`: an ordered permutation. */
  function Sort(xs: seq<string>): (r: seq<string>)
    ensures multiset(r) == multiset(xs)
    ensures Sorted(r)
  {
    if xs == [] then []
    else
      assert xs == [xs[0]] + xs[1..];
      Insert(xs[0], Sort(xs[1..]))
  }

  /** Sorting neither adds nor loses a member. */
  lemma SortKeepsMembers(xs: seq<string>)
    ensures forall k :: k in Sort(xs) <==> k in xs
  {
    var r := Sort(xs);
    forall k
      ensures k in r <==> k in xs
    {
      assert k in r <==> k in multiset(r);
      assert k in xs <==> k in multiset(xs);
    }
  }

  /** No item occurs twice. */
  predicate NoRepeats(xs: seq<string>) {
    forall i, j :: 0 <= i < j < |xs| ==> xs[i] != xs[j]
  }

  lemma {:induction false} NoRepeatsCount(xs: seq<string>, k: string)
    requires NoRepeats(xs)
    ensures multiset(xs)[k] <= 1
  {
    if xs != [] {
      assert xs == [xs[0]] + xs[1..];
      assert NoRepeats(xs[1..]) by {
        forall i, j | 0 <= i < j < |xs| - 1
          ensures xs[1..][i] != xs[1..][j]
        {
          assert xs[1..][i] == xs[i + 1] && xs[1..][j] == xs[j + 1];
        }
      }
      NoRepeatsCount(xs[1..], k);
      if k == xs[0] {
        assert k !in xs[1..];
      }
    }
  }

  lemma CountNoRepeats(xs: seq<string>)
    requires forall k :: multiset(xs)[k] <= 1
    ensures NoRepeats(xs)
  {
    forall i, j | 0 <= i < j < |xs|
      ensures xs[i] != xs[j]
    {
      assert xs == xs[..j] + xs[j..];
      assert xs[i] in xs[..j] && xs[j] in xs[j..];
      assert multiset(xs)[xs[i]] == multiset(xs[..j])[xs[i]] + multiset(xs[j..])[xs[i]];
      assert multiset(xs)[xs[j]] == multiset(xs[..j])[xs[j]] + multiset(xs[j..])[xs[j]];
    }
  }

  /** Reordering a list without repeats leaves it without repeats. */
  lemma NoRepeatsPermutation(xs: seq<string>, ys: seq<string>)
    requires multiset(xs) == multiset(ys) && NoRepeats(xs)
    ensures NoRepeats(ys)
  {
    forall k
      ensures multiset(ys)[k] <= 1
    {
      NoRepeatsCount(xs, k);
    }
    CountNoRepeats(ys);
  }

  /** `set(cfg) - names`, each key once, in the order of its last
      occurrence in the dictionary's items. */
  function UnknownKeys<V>(cfg: Config<V>, names: set<string>): (r: seq<string>)
    ensures forall k :: k in r <==> k in Firsts(cfg) && k !in names
    ensures NoRepeats(r)
  {
    if cfg == [] then []
    else
      assert Firsts(cfg) == [cfg[0].0] + Firsts(cfg[1..]);
      var k := cfg[0].0;
      var rest := UnknownKeys(cfg[1..], names);
      var r := (if k in names || k in Firsts(cfg[1..]) then [] else [k]) + rest;
      assert NoRepeats(r) by {
        forall i, j | 0 <= i < j < |r|
          ensures r[i] != r[j]
        {
          if |r| > |rest| && i == 0 {
            assert r[j] == rest[j - 1];
          } else if |r| > |rest| {
            assert r[i] == rest[i - 1] && r[j] == rest[j - 1];
          }
        }
      }
      r
  }

  /** `{k: v for k, v in cfg.items() if k in names}` */
  function Restrict<V>(cfg: Config<V>, names: set<string>): Config<V> {
    if cfg == [] then []
    else (if cfg[0].0 in names then [cfg[0]] else []) + Restrict(cfg[1..], names)
  }

  /** Restricting to a set that holds every key keeps every item. */
  lemma {:induction false} RestrictAllKnown<V>(cfg: Config<V>, names: set<string>)
    requires forall k :: k in Firsts(cfg) ==> k in names
    ensures Restrict(cfg, names) == cfg
  {
    if cfg != [] {
      assert Firsts(cfg) == [cfg[0].0] + Firsts(cfg[1..]);
      RestrictAllKnown(cfg[1..], names);
    }
  }

  /** The 400 error for unknown keys. */
  function UnknownKeysError(cls: ConfigClass, unknown: seq<string>): Error {
    Http(400, "Unknown config keys for " + cls.name + ": " + Join(unknown, ", "))
  }

  /** `_filter_dataclass_kwargs`: a class that is not a dataclass takes the
      dictionary as it is; otherwise any key that is not a field is
      rejected with HTTP 400, listing the unknown keys sorted; a dictionary
      of known keys comes back whole. */
  function FilterKwargs<V>(cls: ConfigClass, cfg: Config<V>): (r: Result<Config<V>>)
    ensures r.Ok? <==> !cls.isDataclass || forall k :: k in Firsts(cfg) ==> k in cls.fields
    ensures r.Ok? ==> r.value == cfg
    ensures r.Err? ==> exists u ::
      && r.error == UnknownKeysError(cls, u)
      && Sorted(u) && u != [] && NoRepeats(u)
      && (forall k :: k in u <==> k in Firsts(cfg) && k !in cls.fields)
  {
    if !cls.isDataclass then Ok(cfg)
    else
      var unknown := Sort(UnknownKeys(cfg, cls.fields));
      SortKeepsMembers(UnknownKeys(cfg, cls.fields));
      NoRepeatsPermutation(UnknownKeys(cfg, cls.fields), unknown);
      if unknown != [] then
        assert unknown[0] in Firsts(cfg) && unknown[0] !in cls.fields;
        Err(UnknownKeysError(cls, unknown))
      else
        RestrictAllKnown(cfg, cls.fields);
        Ok(Restrict(cfg, cls.fields))
  }

  /** The 400 error for a configuration the class refuses. */
  function InvalidConfigError(cls: ConfigClass, message: string): Error {
    Http(400, "Invalid config for " + cls.name + ": " + message)
  }

  /** `build_config` up to the class call: `cfg or {}` turns a missing
      configuration into an empty one, then the keys are filtered; the
      class call is an oracle whose `TypeError` message, if any, becomes
      an HTTP 400. The result is the keyword arguments the class was
      built from. */
  function BuildConfig<V>(cls: ConfigClass, cfg: Option<Config<V>>, typeError: Option<string>): (r: Result<Config<V>>)
    ensures cfg.None? ==> r == (if typeError.Some? then Err(InvalidConfigError(cls, typeError.value)) else Ok([]))
    ensures var items := if cfg.Some? then cfg.value else [];
      && (r.Ok? <==> typeError.None? && FilterKwargs(cls, items).Ok?)
      && (r.Ok? ==> r.value == items)
      && (FilterKwargs(cls, items).Err? ==> r == FilterKwargs(cls, items))
      && (FilterKwargs(cls, items).Ok? && typeError.Some? ==> r == Err(InvalidConfigError(cls, typeError.value)))
  {
    var items := if cfg.Some? then cfg.value else [];
    var kwargs := FilterKwargs(cls, items);
    if kwargs.Err? then Err(kwargs.error)
    else if typeError.Some? then Err(InvalidConfigError(cls, typeError.value))
    else Ok(kwargs.value)
  }

  /** `cfg or {}`: a missing configuration behaves exactly like an empty
      one, and an empty one always passes the key filter. */
  lemma BuildConfigMissingIsEmpty<V>(cls: ConfigClass, typeError: Option<string>)
    ensures BuildConfig<V>(cls, None, typeError) == BuildConfig<V>(cls, Some([]), typeError)
  {
  }

  /** For a dataclass, a configuration builds exactly when every key is a
      field and the class call raises no `TypeError`; an unknown key is
      reported before any `TypeError`. */
  lemma BuildConfigAccepts<V>(cls: ConfigClass, cfg: Config<V>, typeError: Option<string>)
    requires cls.isDataclass
    ensures BuildConfig(cls, Some(cfg), typeError).Ok?
        <==> typeError.None? && forall k :: k in Firsts(cfg) ==> k in cls.fields
    ensures (exists k :: k in Firsts(cfg) && k !in cls.fields) ==>
        FilterKwargs(cls, cfg).Err? && BuildConfig(cls, Some(cfg), typeError) == FilterKwargs(cls, cfg)
  {
  }

  /** Is this content type one the upload accepts? */
  predicate AcceptedContentType(contentType: Option<string>) {
    contentType.None? || contentType.value == "" || Lower(contentType.value) in WavMediaTypes
  }

  /** `validate_upload_content_type`: a missing or empty type passes;
      otherwise the lower-cased type must be a WAV media type, else HTTP
      415 quoting the type as sent. */
  function ValidateContentType(contentType: Option<string>): (r: Result<()>)
    ensures r.Ok? <==> AcceptedContentType(contentType)
    ensures r.Err? ==> r.error == Http(415, "Unsupported content type '" + contentType.value
                                             + "'. Please upload WAV audio (audio/wav).")
  {
    if contentType.Some? && contentType.value != "" && Lower(contentType.value) !in WavMediaTypes then
      Err(Http(415, "Unsupported content type '" + contentType.value + "'. Please upload WAV audio (audio/wav)."))
    else Ok(())
  }

  /** The type check ignores letter case. */
  lemma ContentTypeIgnoresCase(ct: string)
    ensures ValidateContentType(Some(ct)).Ok? <==> ValidateContentType(Some(Lower(ct))).Ok?
  {
    LowerIdempotent(ct);
  }

  /** "Audio/WAV" passes; "audio/mpeg" does not. */
  lemma ContentTypeExamples()
    ensures ValidateContentType(Some("Audio/WAV")).Ok?
    ensures ValidateContentType(Some("audio/mpeg")).Err?
  {
    var l := Lower("Audio/WAV");
    assert l[0] == 'a' && l[6] == 'w' && l[7] == 'a' && l[8] == 'v';
    assert l == "audio/wav";
    var m := Lower("audio/mpeg");
    assert |m| == 10;
  }

  /** The checks `load_wav_upload` makes before decoding: the content type
      first, then an empty payload is an HTTP 400. Decoding is not part of
      this model; the payload is handed on unchanged. */
  function CheckUpload(contentType: Option<string>, payload: seq<bv8>): (r: Result<seq<bv8>>)
    ensures r.Ok? <==> AcceptedContentType(contentType) && payload != []
    ensures r.Ok? ==> r.value == payload
    ensures !AcceptedContentType(contentType) ==> r == Err(ValidateContentType(contentType).error)
    ensures AcceptedContentType(contentType) && payload == [] ==> r == Err(Http(400, "Uploaded WAV is empty"))
  {
    var v := ValidateContentType(contentType);
    if v.Err? then Err(v.error)
    else if payload == [] then Err(Http(400, "Uploaded WAV is empty"))
    else Ok(payload)
  }
}
