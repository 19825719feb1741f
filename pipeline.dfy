/**
 * Properties of the whole pipeline: read, resolve, filter, render.
 */
module Pipeline {
  import opened Wrappers
  import opened Text
  import opened Resolver
  import opened Batch
  import opened Render

  /**
   * An unexpected failure with an empty message is kept by the filter
   * (`is not None`) but the renderers test truthiness: normal plain output
   * prints nothing for it, IP-only output prints "-", JSON gives only the
   * domain and CSV leaves both fields empty.
   */
  lemma EmptyErrorKeptButHidden(d: string, lookup: string -> LookupOutcome)
    requires d != [] && IsStripped(d) && lookup(d) == OtherError("")
    ensures Collected([d], lookup, true) == [Resolution(d, None, Some(""))]
    ensures PlainText(Collected([d], lookup, true), false) == []
    ensures PlainText(Collected([d], lookup, true), true) == [NO_IP]
    ensures JsonEntry(Resolution(d, None, Some(""))).Keys == {"domain"}
    ensures CsvRow(Resolution(d, None, Some(""))) == [d, "", ""]
  {
    StripStripped(d);
    CollectedSingle(d, lookup, true);
    PlainTextSingle(Resolution(d, None, Some("")), false);
    PlainTextSingle(Resolution(d, None, Some("")), true);
  }

  /** A name padded with spaces on both sides becomes the bare name. */
  lemma PaddedNameStripped()
    ensures Domains(["  b.invalid  "]) == ["b.invalid"]
  {
    var pad, name := "  ", "b.invalid";
    var line := pad + name + pad;
    assert line == "  b.invalid  ";
    assert line[|pad|..|pad| + |name|] == name;
    StripUnique(line, 2, 11);
    DomainsSingle(line);
  }

  /** A line that is already a bare name is kept as it is. */
  lemma BareNameKept(name: string)
    requires name != [] && IsStripped(name)
    ensures Domains([name]) == [name]
  {
    StripStripped(name);
    DomainsSingle(name);
  }

  /** An empty line contributes no domain. */
  lemma EmptyLineDropped()
    ensures Domains([""]) == []
  {
    StripShape("");
    DomainsSingle("");
  }

  /** The blank line is dropped and the padded name is stripped. */
  lemma BlankLineDropped()
    ensures Domains(["a.invalid", "", "  b.invalid  "]) == ["a.invalid", "b.invalid"]
  {
    var a, blank, b := "a.invalid", "", "  b.invalid  ";
    assert [a, blank, b] == [a] + [blank] + [b];
    DomainsAppend([a] + [blank], [b]);
    DomainsAppend([a], [blank]);
    BareNameKept(a);
    EmptyLineDropped();
    PaddedNameStripped();
  }

  /** Both failing names give a DNS error with their own name-service message. */
  lemma BothNamesFail(lookup: string -> LookupOutcome, ma: string, mb: string)
    requires lookup("a.invalid") == GaiError(ma) && lookup("b.invalid") == GaiError(mb)
    ensures Collected(["a.invalid", "b.invalid"], lookup, true)
         == [Resolution("a.invalid", None, Some(DNS_ERROR_PREFIX + ma)),
             Resolution("b.invalid", None, Some(DNS_ERROR_PREFIX + mb))]
    ensures Collected(["a.invalid", "b.invalid"], lookup, false) == []
  {
    StripStripped("a.invalid");
    StripStripped("b.invalid");
    CollectedAppend(["a.invalid"], ["b.invalid"], lookup, true);
    CollectedAppend(["a.invalid"], ["b.invalid"], lookup, false);
    assert ["a.invalid"] + ["b.invalid"] == ["a.invalid", "b.invalid"];
    CollectedSingle("a.invalid", lookup, true);
    CollectedSingle("b.invalid", lookup, true);
    CollectedSingle("a.invalid", lookup, false);
    CollectedSingle("b.invalid", lookup, false);
  }

  /**
   * Two names that fail in the name service, around a blank line: the
   * blank line is never submitted, and only with errors shown do the
   * failures appear, in whatever order the lookups complete.
   */
  lemma FailingNamesAroundBlankLine(lookup: string -> LookupOutcome, ma: string, mb: string, order: seq<string>)
    requires lookup("a.invalid") == GaiError(ma) && lookup("b.invalid") == GaiError(mb)
    requires multiset(order) == multiset(Domains(["a.invalid", "", "  b.invalid  "]))
    ensures multiset(Collected(order, lookup, true))
         == multiset{Resolution("a.invalid", None, Some(DNS_ERROR_PREFIX + ma)),
                     Resolution("b.invalid", None, Some(DNS_ERROR_PREFIX + mb))}
    ensures Collected(order, lookup, false) == []
  {
    BlankLineDropped();
    BothNamesFail(lookup, ma, mb);
    var ds := ["a.invalid", "b.invalid"];
    CollectedPermutation(order, ds, lookup, true);
    CollectedPermutation(order, ds, lookup, false);
  }

  /** The only completion order of a one-domain list is that domain. */
  lemma SingleDomainOrder(order: seq<string>, d: string)
    requires multiset(order) == multiset([d])
    ensures order == [d]
  {
    assert |order| == |multiset(order)| == 1;
    assert order[0] in multiset(order);
  }

  /** A name that resolves is kept whether errors are shown or not. */
  lemma ExampleResolves(lookup: string -> LookupOutcome, showErrors: bool)
    requires lookup("example.com") == Address("93.184.216.34")
    ensures Collected(["example.com"], lookup, showErrors) == [Resolution("example.com", Some("93.184.216.34"), None)]
  {
    StripStripped("example.com");
    CollectedSingle("example.com", lookup, showErrors);
  }

  /** A single name that resolves prints exactly its address in IP-only mode. */
  lemma ResolvedNameIpOnly(lookup: string -> LookupOutcome, order: seq<string>, showErrors: bool)
    requires lookup("example.com") == Address("93.184.216.34")
    requires multiset(order) == multiset(Domains(["example.com"]))
    ensures PlainText(Collected(order, lookup, showErrors), true) == ["93.184.216.34"]
  {
    BareNameKept("example.com");
    SingleDomainOrder(order, "example.com");
    ExampleResolves(lookup, showErrors);
    PlainTextSingle(Resolution("example.com", Some("93.184.216.34"), None), true);
  }
}
