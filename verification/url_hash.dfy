/** Reading the lead source and company from the page's URL hash, such as
    `leadSource=google&company=companyB` (`get_hash_params` and
    `init_from_url_params` in ChatForm/__init__.py). */
module UrlHash {
  import opened Wrappers
  import opened Text

  const LeadSourceParam := "leadSource"
  const CompanyParam := "company"
  const DefaultLeadSource := "direct"
  const DefaultCompany := "companyA"

  /** A segment contributes a parameter when it holds an `=`. */
  predicate IsBinding(seg: string) {
    '=' in seg
  }

  /** The text before the first `=` of a segment. */
  function KeyOf(seg: string): string
    requires IsBinding(seg)
  {
    seg[..IndexOf(seg, '=')]
  }

  /** Everything after the first `=` of a segment, further `=` included. */
  function ValueOf(seg: string): string
    requires IsBinding(seg)
  {
    seg[IndexOf(seg, '=') + 1..]
  }

  predicate Binds(seg: string, k: string) {
    IsBinding(seg) && KeyOf(seg) == k
  }

  /** The dictionary filled by the loop over the segments: each binding
      segment stores its value under its key, later ones overwriting earlier
      ones. */
  function Collect(segs: seq<string>): map<string, string>
    decreases |segs|
  {
    if segs == [] then map[]
    else
      var m := Collect(segs[..|segs| - 1]);
      var seg := segs[|segs| - 1];
      if IsBinding(seg) then m[KeyOf(seg) := ValueOf(seg)] else m
  }

  /** Segment `i` binds `k` to `v`, and no later segment binds `k`. */
  predicate LastBindingAt(segs: seq<string>, k: string, v: string, i: int) {
    && 0 <= i < |segs|
    && Binds(segs[i], k) && ValueOf(segs[i]) == v
    && forall j | i < j < |segs| :: !Binds(segs[j], k)
  }

  /** The value the last segment binding `k` gives it. */
  predicate LastBinding(segs: seq<string>, k: string, v: string) {
    exists i | 0 <= i < |segs| :: LastBindingAt(segs, k, v, i)
  }

  /** The dictionary holds a key exactly when some segment binds it, and then
      holds the value of the last such segment: segments without `=` add
      nothing and later duplicates win. */
  lemma {:induction false} CollectSpec(segs: seq<string>, k: string, v: string)
    ensures k in Collect(segs) <==> exists i | 0 <= i < |segs| :: Binds(segs[i], k)
    ensures k in Collect(segs) && Collect(segs)[k] == v <==> LastBinding(segs, k, v)
    decreases |segs|
  {
    if segs != [] {
      var n := |segs| - 1;
      var init, last := segs[..n], segs[n];
      assert forall i | 0 <= i < n :: segs[i] == init[i];
      CollectSpec(init, k, v);
      if Binds(last, k) {
        assert LastBinding(segs, k, v) ==> ValueOf(last) == v by {
          if LastBinding(segs, k, v) {
            var i :| 0 <= i < |segs| && LastBindingAt(segs, k, v, i);
            assert i == n;
          }
        }
        if ValueOf(last) == v {
          assert LastBindingAt(segs, k, v, n);
        }
      } else {
        if LastBinding(init, k, v) {
          var i :| 0 <= i < n && LastBindingAt(init, k, v, i);
          assert LastBindingAt(segs, k, v, i);
        }
        if LastBinding(segs, k, v) {
          var i :| 0 <= i < |segs| && LastBindingAt(segs, k, v, i);
          assert LastBindingAt(init, k, v, i);
        }
        if exists i | 0 <= i < |segs| :: Binds(segs[i], k) {
          var i :| 0 <= i < |segs| && Binds(segs[i], k);
          assert Binds(init[i], k);
        }
      }
    }
  }

  /** The parameters of a hash string: none for the empty hash, otherwise the
      dictionary collected from its `&`-separated segments. */
  function ParseHash(hash: string): map<string, string> {
    if hash == [] then map[] else Collect(Split(hash, '&'))
  }

  /** `get_hash_params` on a string hash: only the lead source and company
      entries of the parsed parameters are kept. */
  function HashParams(hash: string): (r: map<string, string>)
    ensures hash == [] ==> r == map[]
    ensures r.Keys <= {LeadSourceParam, CompanyParam}
    ensures LeadSourceParam in r <==> LeadSourceParam in ParseHash(hash)
    ensures CompanyParam in r <==> CompanyParam in ParseHash(hash)
    ensures forall k | k in r :: k in ParseHash(hash) && r[k] == ParseHash(hash)[k]
  {
    var params := ParseHash(hash);
    var lead := if LeadSourceParam in params then map[LeadSourceParam := params[LeadSourceParam]] else map[];
    if CompanyParam in params then lead[CompanyParam := params[CompanyParam]] else lead
  }

  /** Where the applicant came from and which employer the chat is about. */
  datatype Origin = Origin(leadSource: string, company: string)

  /** `init_from_url_params`: a missing lead source becomes "direct" and a
      missing company "companyA"; present values are used as they are. */
  function InitFromParams(params: map<string, string>): (o: Origin)
    ensures LeadSourceParam in params ==> o.leadSource == params[LeadSourceParam]
    ensures LeadSourceParam !in params ==> o.leadSource == DefaultLeadSource
    ensures CompanyParam in params ==> o.company == params[CompanyParam]
    ensures CompanyParam !in params ==> o.company == DefaultCompany
  {
    Origin(ValueOr(Lookup(params, LeadSourceParam), DefaultLeadSource),
           ValueOr(Lookup(params, CompanyParam), DefaultCompany))
  }

  /** The empty hash is one segment without `=`, so it binds nothing, just as
      `if url_hash:` skips the parsing. */
  lemma EmptyHash()
    ensures Split("", '&') == [""]
    ensures Collect([""]) == ParseHash("")
  {
  }

  /** From any hash the lead source is the value of the last segment
      binding `leadSource`, or "direct" when no segment binds it. */
  lemma LeadSourceFromHash(hash: string, v: string)
    ensures InitFromParams(HashParams(hash)).leadSource == v <==>
              LastBinding(Split(hash, '&'), LeadSourceParam, v) ||
              (v == DefaultLeadSource &&
               forall i | 0 <= i < |Split(hash, '&')| :: !Binds(Split(hash, '&')[i], LeadSourceParam))
  {
    CollectSpec(Split(hash, '&'), LeadSourceParam, v);
    if hash == [] {
      EmptyHash();
    }
  }

  /** The same for the company, with "companyA" as the default. */
  lemma CompanyFromHash(hash: string, v: string)
    ensures InitFromParams(HashParams(hash)).company == v <==>
              LastBinding(Split(hash, '&'), CompanyParam, v) ||
              (v == DefaultCompany &&
               forall i | 0 <= i < |Split(hash, '&')| :: !Binds(Split(hash, '&')[i], CompanyParam))
  {
    CollectSpec(Split(hash, '&'), CompanyParam, v);
    if hash == [] {
      EmptyHash();
    }
  }

  lemma BindingSegment(key: string, value: string)
    requires '=' !in key
    ensures IsBinding(key + "=" + value)
    ensures KeyOf(key + "=" + value) == key && ValueOf(key + "=" + value) == value
  {
    IndexOfAfter(key, '=', value);
    assert key + "=" + value == key + ['='] + value;
  }

  lemma SplitPair(a: string, b: string)
    requires '&' !in a && '&' !in b
    ensures Split(a + "&" + b, '&') == [a, b]
  {
    assert [a, b][1..] == [b];
    assert Join([a, b], "&") == a + "&" + b;
    SplitJoin([a, b], '&');
  }

  lemma CollectPair(a: string, b: string)
    requires IsBinding(a) && IsBinding(b)
    ensures Collect([a, b]) == map[KeyOf(a) := ValueOf(a)][KeyOf(b) := ValueOf(b)]
  {
    assert [a, b][..1] == [a];
    assert [a][..0] == [];
    assert Collect([a]) == map[KeyOf(a) := ValueOf(a)];
  }

  /** The hashes the chat links are built with read back as written: for
      values without `&` (an `=` inside a value is kept), the hash
      `leadSource=<a>&company=<b>` yields lead source `a` and company `b`. */
  lemma HashRoundTrip(lead: string, company: string)
    requires '&' !in lead && '&' !in company
    ensures InitFromParams(HashParams(LeadSourceParam + "=" + lead + "&" + CompanyParam + "=" + company))
            == Origin(lead, company)
  {
    var a, b := LeadSourceParam + "=" + lead, CompanyParam + "=" + company;
    var hash := a + "&" + b;
    assert hash == LeadSourceParam + "=" + lead + "&" + CompanyParam + "=" + company;
    assert '&' !in a && '&' !in b by {
      assert a == LeadSourceParam + ['='] + lead;
      assert b == CompanyParam + ['='] + company;
    }
    SplitPair(a, b);
    BindingSegment(LeadSourceParam, lead);
    BindingSegment(CompanyParam, company);
    CollectPair(a, b);
    var parsed := ParseHash(hash);
    assert parsed == map[LeadSourceParam := lead, CompanyParam := company];
    var params := HashParams(hash);
    assert LeadSourceParam in params && params[LeadSourceParam] == lead;
    assert CompanyParam in params && params[CompanyParam] == company;
  }
}
