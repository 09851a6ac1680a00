/** The Company record: construction from request fields (cleaning both codes,
    then validating the CNPJ), its display dictionary, and the partial update
    of its two mutable fields.

    The CNPJ check-digit algorithm belongs to an outside library; it is passed
    in as `isValid`, a predicate on the cleaned CNPJ. */
module Companies {
  import opened Wrappers
  import opened Codec

  /** `ValueError('CNPJ inválido')`, which the create route answers with HTTP 400. */
  datatype Error = InvalidCnpj

  /** The four stored columns of a company row. */
  datatype Row = Row(cnpj: string, razaoSocial: string, nomeFantasia: string, cnae: string)

  /** The dictionary `as_dict` returns: same keys, codes in display form. */
  datatype CompanyDict = CompanyDict(cnpj: string, razaoSocial: string, nomeFantasia: string, cnae: string)

  /** Both codes are in canonical (digits only) form. */
  predicate Canonical(row: Row) {
    AllDigits(row.cnpj) && AllDigits(row.cnae)
  }

  // ---------------------------------------------------------------------------
  // Construction
  // ---------------------------------------------------------------------------

  /** What `Company(cnpj, razao_social, nomeFantasia, cnae)` produces: the row with
      both codes cleaned and both names verbatim, or `InvalidCnpj` exactly when
      the CNPJ, after cleaning, fails validation. */
  function Construct(cnpj: string, razaoSocial: string, nomeFantasia: string, cnae: string,
                     isValid: string -> bool): (r: Result<Row, Error>)
    ensures r.Success? <==> isValid(Clean(cnpj))
    ensures r.Failure? ==> r.error == InvalidCnpj
    ensures r.Success? ==> Canonical(r.value)
    ensures r.Success? ==> r.value.razaoSocial == razaoSocial && r.value.nomeFantasia == nomeFantasia
    ensures r.Success? ==> r.value.cnpj == Clean(cnpj) && r.value.cnae == Clean(cnae)
  {
    var row := Row(Clean(cnpj), razaoSocial, nomeFantasia, Clean(cnae));
    if isValid(row.cnpj) then Success(row) else Failure(InvalidCnpj)
  }

  /** Construction does not care how the codes are punctuated: submitting the
      display forms of two digit strings gives the same outcome as submitting
      the digit strings themselves (validation runs after cleaning). */
  lemma ConstructAcceptsDisplayForm(cnpj: string, razaoSocial: string, nomeFantasia: string, cnae: string,
                                    isValid: string -> bool)
    requires AllDigits(cnpj) && AllDigits(cnae)
    ensures Construct(FormatCnpj(cnpj), razaoSocial, nomeFantasia, FormatCnae(cnae), isValid)
         == Construct(cnpj, razaoSocial, nomeFantasia, cnae, isValid)
  {
    FormatCnpjRoundTrip(cnpj);
    FormatCnaeRoundTrip(cnae);
    CleanFixesExactlyDigitStrings(cnpj);
    CleanFixesExactlyDigitStrings(cnae);
  }

  /** When the validator accepts only 14-character strings, every row that
      construction accepts displays as `DD.DDD.DDD/DDDD-DD`, and submitting
      that display form (with the displayed CNAE) constructs the same row. */
  lemma ConstructedRowDisplay(cnpj: string, razaoSocial: string, nomeFantasia: string, cnae: string,
                              isValid: string -> bool)
    requires forall t :: isValid(t) ==> |t| == 14
    requires Construct(cnpj, razaoSocial, nomeFantasia, cnae, isValid).Success?
    ensures var row := Construct(cnpj, razaoSocial, nomeFantasia, cnae, isValid).value;
      && IsCnpjDisplay(AsDict(row).cnpj)
      && Construct(AsDict(row).cnpj, AsDict(row).razaoSocial, AsDict(row).nomeFantasia, AsDict(row).cnae, isValid)
         == Success(row)
  {
    var row := Construct(cnpj, razaoSocial, nomeFantasia, cnae, isValid).value;
    var d := AsDict(row);
    assert d == CompanyDict(FormatCnpj(row.cnpj), razaoSocial, nomeFantasia, FormatCnae(row.cnae));
    assert |row.cnpj| == 14;
    FormatCnpjLayout(row.cnpj);
    ConstructAcceptsDisplayForm(row.cnpj, razaoSocial, nomeFantasia, row.cnae, isValid);
    assert Construct(row.cnpj, razaoSocial, nomeFantasia, row.cnae, isValid) == Success(row) by {
      CleanFixesExactlyDigitStrings(row.cnpj);
      CleanFixesExactlyDigitStrings(row.cnae);
    }
  }

  // ---------------------------------------------------------------------------
  // Display
  // ---------------------------------------------------------------------------

  /** `as_dict`: both names pass through; each code is shown in display form,
      which cleans back to the cleaned stored code. */
  function AsDict(row: Row): (d: CompanyDict)
    ensures d.razaoSocial == row.razaoSocial && d.nomeFantasia == row.nomeFantasia
    ensures d.cnpj == FormatCnpj(row.cnpj) && d.cnae == FormatCnae(row.cnae)
    ensures Clean(d.cnpj) == Clean(row.cnpj) && |d.cnpj| == |row.cnpj| + 4
    ensures Clean(d.cnae) == Clean(row.cnae) && |d.cnae| == |row.cnae| + 1
  {
    CleanFormatCnpj(row.cnpj);
    CleanFormatCnae(row.cnae);
    CompanyDict(FormatCnpj(row.cnpj), row.razaoSocial, row.nomeFantasia, FormatCnae(row.cnae))
  }

  /** The stored row of a canonical company is recovered from its display
      dictionary by cleaning the two codes. */
  lemma AsDictRoundTrip(row: Row)
    requires Canonical(row)
    ensures var d := AsDict(row); Row(Clean(d.cnpj), d.razaoSocial, d.nomeFantasia, Clean(d.cnae)) == row
  {
    CleanFixesExactlyDigitStrings(row.cnpj);
    CleanFixesExactlyDigitStrings(row.cnae);
  }

  // ---------------------------------------------------------------------------
  // Partial update
  // ---------------------------------------------------------------------------

  /** The field merge of `update_company`: each of `nome_fantasia` and `cnae`
      takes the supplied value if there is one and keeps the old one otherwise;
      the CNPJ and the legal name never change. A supplied CNAE is stored as
      given, without cleaning. */
  function Merge(row: Row, nomeFantasia: Option<string>, cnae: Option<string>): (r: Row)
    ensures r.cnpj == row.cnpj && r.razaoSocial == row.razaoSocial
    ensures r.nomeFantasia == (if nomeFantasia.Some? then nomeFantasia.value else row.nomeFantasia)
    ensures r.cnae == (if cnae.Some? then cnae.value else row.cnae)
  {
    row.(nomeFantasia := nomeFantasia.GetOr(row.nomeFantasia), cnae := cnae.GetOr(row.cnae))
  }

  /** Two successive updates act as one whose supplied fields are those of the
      second update, falling back to the first. */
  lemma MergeTwice(row: Row, nf1: Option<string>, cnae1: Option<string>, nf2: Option<string>, cnae2: Option<string>)
    ensures Merge(Merge(row, nf1, cnae1), nf2, cnae2)
         == Merge(row, if nf2.Some? then nf2 else nf1, if cnae2.Some? then cnae2 else cnae1)
  {
  }

  /** Repeating an update changes nothing more. */
  lemma MergeIdempotent(row: Row, nomeFantasia: Option<string>, cnae: Option<string>)
    ensures Merge(Merge(row, nomeFantasia, cnae), nomeFantasia, cnae) == Merge(row, nomeFantasia, cnae)
  {
    MergeTwice(row, nomeFantasia, cnae, nomeFantasia, cnae);
  }

  /** A raw CNAE supplied to an update stays punctuated in storage, and the
      display form `as_dict` shows carries two dashes. */
  lemma RawCnaeUpdateStaysPunctuated()
    ensures var row := Row("11222333000181", "Empresa Exemplo Ltda", "Exemplo", "6201501");
      var updated := Merge(row, None, Some("6201-5/01"));
      && Canonical(row)
      && updated.cnae == "6201-5/01"
      && !Canonical(updated)
      && AsDict(updated).cnae == "6201--5/01"
  {
    var row := Row("11222333000181", "Empresa Exemplo Ltda", "Exemplo", "6201501");
    var raw := "6201-5/01";
    var updated := Merge(row, None, Some(raw));
    assert updated.cnae == raw;
    assert !IsDigit(raw[4]);
    assert FormatCnae(raw) == "6201--5/01" by {
      assert Take(raw, 4) == "6201";
      assert Drop(raw, 4) == "-5/01";
    }
  }

  /** The update as evidently intended: a supplied CNAE is cleaned before it is
      stored, as construction does. */
  function MergeCleaned(row: Row, nomeFantasia: Option<string>, cnae: Option<string>): (r: Row)
    ensures r.cnpj == row.cnpj && r.razaoSocial == row.razaoSocial
    ensures r.nomeFantasia == (if nomeFantasia.Some? then nomeFantasia.value else row.nomeFantasia)
    ensures cnae.Some? ==> r.cnae == Clean(cnae.value)
    ensures cnae.None? ==> r.cnae == row.cnae
  {
    Merge(row, nomeFantasia, if cnae.Some? then Some(Clean(cnae.value)) else None)
  }

  /** The corrected update keeps a canonical row canonical, so its display
      form always cleans back to what is stored. */
  lemma MergeCleanedKeepsCanonical(row: Row, nomeFantasia: Option<string>, cnae: Option<string>)
    requires Canonical(row)
    ensures Canonical(MergeCleaned(row, nomeFantasia, cnae))
    ensures var r := MergeCleaned(row, nomeFantasia, cnae); Clean(AsDict(r).cnae) == r.cnae
  {
    var r := MergeCleaned(row, nomeFantasia, cnae);
    CleanFixesExactlyDigitStrings(r.cnae);
  }

  /** On an already canonical CNAE the corrected update and the update as
      written agree. */
  lemma MergeCleanedAgreesOnDigits(row: Row, nomeFantasia: Option<string>, cnae: Option<string>)
    requires cnae.Some? ==> AllDigits(cnae.value)
    ensures MergeCleaned(row, nomeFantasia, cnae) == Merge(row, nomeFantasia, cnae)
  {
    if cnae.Some? {
      CleanFixesExactlyDigitStrings(cnae.value);
    }
  }

  // ---------------------------------------------------------------------------
  // The mutable record
  // ---------------------------------------------------------------------------

  /** A company object; `__init__` and `update_company` assign its fields in place. */
  class Company {
    var cnpj: string
    var razaoSocial: string
    var nomeFantasia: string
    var cnae: string

    /** The row this object currently holds. */
    function AsRow(): Row
      reads this
    {
      Row(cnpj, razaoSocial, nomeFantasia, cnae)
    }

    /** The field assignments of `__init__`: both codes cleaned, both names verbatim. */
    constructor (cnpj: string, razaoSocial: string, nomeFantasia: string, cnae: string)
      ensures AsRow() == Row(Clean(cnpj), razaoSocial, nomeFantasia, Clean(cnae))
      ensures Canonical(AsRow())
    {
      this.cnpj := Clean(cnpj);
      this.razaoSocial := razaoSocial;
      this.nomeFantasia := nomeFantasia;
      this.cnae := Clean(cnae);
    }

    /** `validate_cnpj`: fails with `InvalidCnpj` exactly when the stored CNPJ
        is not valid. */
    method ValidateCnpj(isValid: string -> bool) returns (outcome: Outcome<Error>)
      ensures outcome.Pass? <==> isValid(cnpj)
      ensures outcome.Fail? ==> outcome.error == InvalidCnpj
    {
      if !isValid(cnpj) {
        return Fail(InvalidCnpj);
      }
      return Pass;
    }

    /** The field merge of `update_company`, in place. */
    method Update(nomeFantasia: Option<string>, cnae: Option<string>)
      modifies this
      ensures AsRow() == Merge(old(AsRow()), nomeFantasia, cnae)
    {
      this.nomeFantasia := nomeFantasia.GetOr(this.nomeFantasia);
      this.cnae := cnae.GetOr(this.cnae);
    }
  }

  /** `Company(...)` as the create route runs it: assign the fields, then
      validate; the error is returned instead of raised. */
  method CreateCompany(cnpj: string, razaoSocial: string, nomeFantasia: string, cnae: string,
                       isValid: string -> bool) returns (r: Result<Company, Error>)
    ensures r.Success? <==> isValid(Clean(cnpj))
    ensures r.Failure? ==> r.error == InvalidCnpj
    ensures r.Success? ==> fresh(r.value)
    ensures r.Success? ==> Construct(cnpj, razaoSocial, nomeFantasia, cnae, isValid) == Success(r.value.AsRow())
  {
    var company := new Company(cnpj, razaoSocial, nomeFantasia, cnae);
    var outcome := company.ValidateCnpj(isValid);
    if outcome.Fail? {
      return Failure(outcome.error);
    }
    return Success(company);
  }
}
