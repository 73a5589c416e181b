/** Choosing the employer whose job a conversation is about
    (`get_company_config` in ServerModule1.py). */
module Companies {
  import opened Wrappers
  import opened Text

  /** The facts the screening agent quotes about one employer. The JSON files
      carry more (wage, location, benefits), which only feed prompt text. */
  datatype CompanyConfig = CompanyConfig(name: string, yoeRequired: int, nightsPerWeek: int)

  /** The two company entries every loaded configuration holds, whether read
      from the JSON files or taken from the built-in fallback. */
  datatype Configs = Configs(companyA: CompanyConfig, companyB: CompanyConfig)

  datatype CompanyKey = CompanyA | CompanyB

  const CompanyAKey := "companya"
  const CompanyBKey := "companyb"

  /** Which entry a requested company name selects; `None` stands for Python's
      `None`. Matching ignores ASCII case, and every name that is neither
      spelling of companyB falls back to companyA. */
  function SelectCompany(name: Option<string>): (k: CompanyKey)
    ensures k == CompanyB <==> name.Some? && Lower(name.value) == CompanyBKey
    ensures name.None? || name == Some([]) ==> k == CompanyA
  {
    if name.Some? && name.value != [] && Lower(name.value) == CompanyAKey then CompanyA
    else if name.Some? && name.value != [] && Lower(name.value) == CompanyBKey then CompanyB
    else CompanyA
  }

  /** `get_company_config`: companyB's entry for a name that lower-cases to
      "companyb", companyA's for every other name and for `None`. */
  function GetCompanyConfig(configs: Configs, name: Option<string>): (c: CompanyConfig)
    ensures c == (if name.Some? && Lower(name.value) == CompanyBKey then configs.companyB else configs.companyA)
  {
    match SelectCompany(name)
    case CompanyA => configs.companyA
    case CompanyB => configs.companyB
  }

  /** Lower-casing yields a given lower-case letter from exactly that letter
      and its upper-case form. */
  lemma LowerCharInverse(c: char, x: char)
    requires 'a' <= x <= 'z'
    ensures LowerChar(c) == x <==> c == x || c == UpperChar(x)
  {
  }

  /** A name lower-cases to `key` exactly when, position by position, it
      spells `key` in either case. */
  lemma {:induction false} LowerMatches(n: string, key: string)
    requires forall i :: 0 <= i < |key| ==> 'a' <= key[i] <= 'z'
    ensures Lower(n) == key <==>
              |n| == |key| && forall i :: 0 <= i < |n| ==> n[i] == key[i] || n[i] == UpperChar(key[i])
  {
    if |n| == |key| {
      forall i | 0 <= i < |n|
        ensures LowerChar(n[i]) == key[i] <==> n[i] == key[i] || n[i] == UpperChar(key[i])
      {
        LowerCharInverse(n[i], key[i]);
      }
      if forall i :: 0 <= i < |n| ==> LowerChar(n[i]) == key[i] {
        assert Lower(n) == key;
      }
    }
  }

  /** companyB is chosen exactly for the names that spell "companyb" in any
      mix of cases; everything else, including `None`, gets companyA. */
  lemma SelectsCompanyB(name: Option<string>)
    ensures SelectCompany(name) == CompanyB <==>
              name.Some? && |name.value| == |CompanyBKey| &&
              forall i :: 0 <= i < |name.value| ==>
                name.value[i] == CompanyBKey[i] || name.value[i] == UpperChar(CompanyBKey[i])
  {
    if name.Some? {
      LowerMatches(name.value, CompanyBKey);
    }
  }
}
