# Company identifier handling, modelled in Dafny

This project models the `Company` record of a small company-registry web
service. Each company is identified by a CNPJ, the 14-digit Brazilian company
registration number, and carries a CNAE, its economic-activity classification
code. The model covers how the record handles these two codes:

- **Normalisation.** `clean_cnpj` and `clean_cnae` keep only the digits of a
  string, in order. Both are `Codec.Clean`, because the two bodies are identical.
- **Display formatting.** `format_cnpj` builds `DD.DDD.DDD/DDDD-DD` and
  `format_cnae` builds `DDDD-rest`. Both follow Python's slicing rules, so
  out-of-range slices clamp to the end of the string.
- **Construction.** `Company(...)` cleans both codes, keeps both names verbatim,
  then validates the cleaned CNPJ. If validation fails it raises `ValueError`.
- **Display record.** `as_dict` builds the record that is shown to clients.
- **Partial update.** The field merge of the update route changes only
  `nome_fantasia` and `cnae`, and only when a value is supplied.

Files:

- `wrappers.dfy`: `Option`, `Result` and `Outcome`. A raised exception becomes
  a `Failure`/`Fail` value.
- `codec.dfy`: module `Codec`. It holds the pure string logic and the lemmas
  about it.
- `companies.dfy`: module `Companies`. It holds:
  - the stored `Row` and the `CompanyDict` that `as_dict` returns;
  - the value-level specifications `Construct`, `AsDict` and `Merge`;
  - the mutable `Company` class. Its constructor, `ValidateCnpj` and `Update`
    are proved against those specifications.

The CNPJ check-digit algorithm lives in the external `validate_docbr` library.
The model does not define it. Every operation that validates takes it as a
parameter `isValid: string -> bool`, a predicate on the cleaned CNPJ.

## Model

| member | source | states |
|---|---|---|
| `Codec.IsDigitExactlyTen` | python_avaliacao/app.py:41 | `IsDigit`, the model of `str.isdigit` that `filter` applies at lines 41 and 46, holds of exactly the ten characters `0123456789` |
| `Codec.Take` | python_avaliacao/app.py:49-53 | `s[:n]`: the result is the prefix of `s` whose length is `n`, or the length of `s` when that is smaller |
| `Codec.Drop` | python_avaliacao/app.py:49-53 | `s[n:]`: the result is the suffix of `s` that leaves out its first `n` characters, and is empty when `n` is past the end |
| `Codec.Slice` | python_avaliacao/app.py:49 | `s[lo:hi]`: with `hi` clamped to the length, the result is `s[lo..hi]`, and it is empty when `lo` lies past the clamped `hi` |
| `Codec.Clean` | python_avaliacao/app.py:38-46 | the result consists of digits only and is no longer than the input |
| `Codec.CleanAppend` | python_avaliacao/app.py:41 | cleaning a concatenation is the concatenation of the cleaned parts, so the filter keeps the original order |
| `Codec.CleanFixesExactlyDigitStrings` | python_avaliacao/app.py:41 | cleaning leaves a string unchanged if and only if it is all digits |
| `Codec.CleanIdempotent` | python_avaliacao/app.py:41 | cleaning twice gives the same result as cleaning once |
| `Codec.CleanLength` | python_avaliacao/app.py:41 | the cleaned length equals the number of digits in the input, counted by an independent definition |
| `Codec.CleanIsSubsequence` | python_avaliacao/app.py:41 | the cleaned string is a subsequence of the input, taken in order |
| `Codec.CnpjGroupsRejoin` | python_avaliacao/app.py:49 | the five slices `[:2] [2:5] [5:8] [8:12] [12:]` concatenate back to the whole string, for any length |
| `Codec.FormatCnpj` | python_avaliacao/app.py:47-49 | the display form is exactly four characters longer than the stored CNPJ |
| `Codec.FormatCnpjLayout` | python_avaliacao/app.py:47-49 | on 14 characters: `.` at indices 2 and 6, `/` at 10, `-` at 15, the input in order at the other positions; on 14 digits the result is a well-formed `DD.DDD.DDD/DDDD-DD` |
| `Codec.CleanFormatCnpj` | python_avaliacao/app.py:39-49 | cleaning the display form gives the same as cleaning the input, for every input |
| `Codec.FormatCnpjRoundTrip` | python_avaliacao/app.py:39-49 | cleaning the display form of any all-digit string returns that string, whatever its length |
| `Codec.FormatCnpjInjective` | python_avaliacao/app.py:47-49 | two different strings, of any content and length, never have the same display form |
| `Codec.NormalizeFormatIdempotent` | python_avaliacao/app.py:39-49 | normalising then formatting a second time changes nothing |
| `Codec.FormatCnae` | python_avaliacao/app.py:51-53 | the display form is one character longer than the stored CNAE |
| `Codec.FormatCnaeShape` | python_avaliacao/app.py:51-53 | `s[:4] + "-" + s[4:]`: the dash follows the fourth character, or the end of a shorter string |
| `Codec.CleanFormatCnae` | python_avaliacao/app.py:43-53 | cleaning the CNAE display form gives the same as cleaning the input |
| `Codec.FormatCnaeRoundTrip` | python_avaliacao/app.py:43-53 | cleaning the display form of an all-digit CNAE returns it |
| `Companies.Construct` | python_avaliacao/app.py:27-36 | succeeds exactly when the cleaned CNPJ is valid, so validation runs after cleaning; on success it stores both cleaned codes (both canonical) and both names verbatim; otherwise the error is `InvalidCnpj` |
| `Companies.ConstructAcceptsDisplayForm` | python_avaliacao/app.py:27-36 | submitting the punctuated display forms of the codes gives the same outcome as submitting the bare digits |
| `Companies.ConstructedRowDisplay` | python_avaliacao/app.py:27-62 | if the validator accepts only 14-character strings, every accepted row shows its CNPJ as `DD.DDD.DDD/DDDD-DD`, and its displayed fields construct the same row again |
| `Companies.AsDict` | python_avaliacao/app.py:55-62 | both names pass through unchanged; the displayed codes are `FormatCnpj` and `FormatCnae` of the stored codes, so they clean back to the cleaned stored codes and add four (CNPJ) or one (CNAE) separators |
| `Companies.AsDictRoundTrip` | python_avaliacao/app.py:55-62 | for a canonical row, cleaning the two displayed codes recovers the stored row |
| `Companies.Merge` | python_avaliacao/app.py:101-102 | CNPJ and legal name never change; each of trade name and CNAE takes the supplied value when there is one and keeps the old value otherwise; the supplied CNAE is stored raw |
| `Companies.MergeTwice` | python_avaliacao/app.py:101-102 | two successive updates act as one update; where the second update supplies a field it wins, otherwise the first update's value stays |
| `Companies.MergeIdempotent` | python_avaliacao/app.py:101-102 | applying the same update twice has the same effect as applying it once |
| `Companies.RawCnaeUpdateStaysPunctuated` | python_avaliacao/app.py:101-102 | counterexample: updating a canonical row with CNAE `6201-5/01` stores it punctuated and displays `6201--5/01` |
| `Companies.MergeCleaned` | python_avaliacao/app.py:101-102 | corrected merge: same frame as `Merge`, but a supplied CNAE is cleaned before it is stored |
| `Companies.MergeCleanedKeepsCanonical` | python_avaliacao/app.py:101-102 | the corrected merge keeps a canonical row canonical, so its displayed CNAE cleans back to the stored one |
| `Companies.MergeCleanedAgreesOnDigits` | python_avaliacao/app.py:101-102 | when the supplied CNAE is already all digits, the corrected merge and the merge as written agree |
| `Companies.Company.constructor` | python_avaliacao/app.py:27-31 | the new object holds the cleaned CNPJ, both names verbatim and the cleaned CNAE, and is canonical |
| `Companies.Company.ValidateCnpj` | python_avaliacao/app.py:34-36 | fails with `InvalidCnpj` if and only if the stored CNPJ is not valid |
| `Companies.Company.Update` | python_avaliacao/app.py:101-102 | in place, the object's new row is `Merge` of its old row and the supplied fields |
| `Companies.CreateCompany` | python_avaliacao/app.py:27-36 | assigns the fields and then validates; returns a fresh company exactly when the cleaned CNPJ is valid; that company's row is the row `Construct` gives; otherwise returns `InvalidCnpj` |

## Left out

- `Codec.Clean`: a digit means ASCII `'0'..'9'`. Python's `str.isdigit` also accepts other Unicode digits, such as superscripts and Arabic-Indic digits. The model does not keep those.
- The CNPJ check-digit algorithm (`validate_docbr.CNPJ().validate`, python_avaliacao/app.py:35) is an external library. It is the parameter `isValid`. Nothing is assumed about it, except where `Companies.ConstructedRowDisplay` explicitly requires that it accepts only 14-character strings.
- Flask routing, JSON parsing and HTTP status codes are not modelled. The create route answers `InvalidCnpj` with status 400 (python_avaliacao/app.py:85-86), but the model stops at the `Failure` value.
- JWT handling, login and `.env` configuration are not modelled. They are wrappers around external libraries.
- SQLAlchemy persistence is not modelled: `session.add/commit/delete`, the lookup `filter_by(cnpj=...)` and its "not found" answer (404), the unique constraint on `cnpj`, and the declared column lengths. These belong to the ORM and the database engine. `Companies.Company.Update` models only the field assignments on a company that was found.
- Listing with sorting and pagination (python_avaliacao/app.py:141-156) is not modelled. It rests on dynamic attribute lookup and on the pagination arithmetic of `flask_sqlalchemy`, which is not visible.
- `Companies.Merge`: supplied values are modelled as strings. A JSON `null` or a non-string value supplied for `nome_fantasia` or `cnae` is outside the model.
- Python's `str` is modelled as a sequence of `char`. Length and indexing agree with Python only for characters that Dafny represents as one `char`.

## Findings

| source | as written | input that shows it | evidently intended | confidence | as-written member | corrected member |
|---|---|---|---|---|---|---|
| python_avaliacao/app.py:102 | the update stores a supplied `cnae` as given; construction cleans it at line 31 | update a row whose CNAE is `6201501` with `{"cnae": "6201-5/01"}`: the stored CNAE becomes `6201-5/01`, and `as_dict` shows `6201--5/01` | the supplied CNAE is cleaned before storage, so stored codes stay digits-only | medium, not executed | `Companies.RawCnaeUpdateStaysPunctuated` | `Companies.MergeCleaned` |

`Companies.Company.Update` follows the code as written and is specified by
`Companies.Merge`. The corrected merge `Companies.MergeCleaned` is proved to
keep every stored code canonical. On digit-only input it agrees with the merge
as written.
