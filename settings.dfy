// `Configuracoes` (configuracoes.py): a two-level map of settings, section
// then key, with defaults used when no settings file can be read.
module Settings {
  import opened Util

  /** A setting's value: the form writes strings, and `auto_backup` a flag. */
  datatype Value = Text(text: string) | Flag(flag: bool)

  type Config = map<string, map<string, Value>>

  /** The defaults of `carregar_configuracoes`. */
  function Defaults(): (c: Config)
    ensures c.Keys == {"sistema", "empresa", "contabilidade"}
    ensures c["sistema"].Keys == {"tema", "idioma", "diretorio_backup", "auto_backup"}
    ensures c["empresa"].Keys == {"nome", "nif", "endereco", "telefone", "email"}
    ensures c["contabilidade"].Keys == {"moeda", "formato_data", "plano_contas"}
  {
    map[
      "sistema" := map["tema" := Text("claro"), "idioma" := Text("pt-BR"),
                       "diretorio_backup" := Text(""), "auto_backup" := Flag(false)],
      "empresa" := map["nome" := Text(""), "nif" := Text(""), "endereco" := Text(""),
                       "telefone" := Text(""), "email" := Text("")],
      "contabilidade" := map["moeda" := Text("Kz"), "formato_data" := Text("%d/%m/%Y"),
                             "plano_contas" := Text("PGC-Angola")]
    ]
  }

  /** What reading the settings file gave: no file, a file that failed to
    * parse, or the parsed settings. */
  datatype FileRead = Absent | Unreadable | Parsed(config: Config)

  function Loaded(f: FileRead): (c: Config)
    ensures f.Parsed? ==> c == f.config
    ensures !f.Parsed? ==> c == Defaults()
  {
    if f.Parsed? then f.config else Defaults()
  }

  /** `obter_config`: the value, or `None` when the section or key is missing. */
  function Get(c: Config, section: string, key: string): (r: Option<Value>)
    ensures r.None? <==> section !in c || key !in c[section]
    ensures r.Some? ==> r.value == c[section][key]
  {
    if section in c && key in c[section] then Some(c[section][key]) else None
  }

  /** The settings after `definir_config(section, key, v)`. */
  function Set(c: Config, section: string, key: string, v: Value): (r: Config)
    ensures r.Keys == c.Keys + {section}
  {
    c[section := (if section in c then c[section] else map[])[key := v]]
  }

  /** Reading back what was just written gives it. */
  lemma GetAfterSet(c: Config, section: string, key: string, v: Value)
    ensures Get(Set(c, section, key, v), section, key) == Some(v)
  {
  }

  /** Writing one setting leaves every other section and key as it was. */
  lemma SetKeepsOthers(c: Config, section: string, key: string, v: Value, s: string, k: string)
    requires s != section || k != key
    ensures Get(Set(c, section, key, v), s, k) == Get(c, s, k)
  {
  }

  /** One field of the settings form: the section and key it edits. */
  datatype Write = Write(section: string, key: string, value: Value)

  /** The keys the form edits, section by section, in the order the form
    * declares them. */
  function FormFields(): seq<(string, string)>
  {
    [("sistema", "tema"), ("sistema", "idioma"), ("sistema", "diretorio_backup"), ("sistema", "auto_backup"),
     ("empresa", "nome"), ("empresa", "nif"), ("empresa", "endereco"), ("empresa", "telefone"), ("empresa", "email"),
     ("contabilidade", "moeda"), ("contabilidade", "formato_data"), ("contabilidade", "plano_contas")]
  }

  /** Every field of the form is a setting present in the defaults. */
  lemma FormFieldsAreDefaults()
    ensures forall i :: 0 <= i < |FormFields()| ==>
      FormFields()[i].0 in Defaults() && FormFields()[i].1 in Defaults()[FormFields()[i].0]
  {
    var f, d := FormFields(), Defaults();
    forall i | 0 <= i < |f| ensures f[i].0 in d && f[i].1 in d[f[i].0] {
      if i < 4 {
        assert f[i].0 == "sistema";
      } else if i < 9 {
        assert f[i].0 == "empresa";
      } else {
        assert f[i].0 == "contabilidade";
      }
    }
  }

  /** Every default setting has a field in the form. */
  lemma DefaultsAreFormFields(s: string, k: string)
    requires s in Defaults() && k in Defaults()[s]
    ensures (s, k) in FormFields()
  {
    var f := FormFields();
    if s == "sistema" {
      assert f[0] == (s, "tema") && f[1] == (s, "idioma") && f[2] == (s, "diretorio_backup") && f[3] == (s, "auto_backup");
    } else if s == "empresa" {
      assert f[4] == (s, "nome") && f[5] == (s, "nif") && f[6] == (s, "endereco") && f[7] == (s, "telefone") && f[8] == (s, "email");
    } else {
      assert f[9] == (s, "moeda") && f[10] == (s, "formato_data") && f[11] == (s, "plano_contas");
    }
  }

  /** The copy-back of `salvar_e_fechar`: each write lands in its existing
    * section; `None` when a section is missing, where the source raises
    * `KeyError` (after the earlier writes). */
  function Copied(c: Config, writes: seq<Write>): (r: Option<Config>)
    ensures r.Some? ==> r.value.Keys == c.Keys
    ensures r.Some? <==> forall i :: 0 <= i < |writes| ==> writes[i].section in c
  {
    if writes == [] then Some(c)
    else if writes[0].section !in c then None
    else Copied(Set(c, writes[0].section, writes[0].key, writes[0].value), writes[1..])
  }

  /** After a successful copy-back, each setting holds the last value the
    * form wrote to it, or its old value when the form did not write it. */
  lemma {:induction false} CopiedHoldsLastWrite(c: Config, writes: seq<Write>, s: string, k: string)
    requires Copied(c, writes).Some?
    ensures Get(Copied(c, writes).value, s, k) == LastWrite(writes, s, k, Get(c, s, k))
  {
    if writes != [] {
      var w := writes[0];
      var c1 := Set(c, w.section, w.key, w.value);
      CopiedHoldsLastWrite(c1, writes[1..], s, k);
      if s == w.section && k == w.key {
        GetAfterSet(c, s, k, w.value);
      } else {
        SetKeepsOthers(c, w.section, w.key, w.value, s, k);
      }
    }
  }

  /** The settings after the writes made before the first one whose
    * section is missing: what memory holds when the copy-back raises, and
    * the copied settings when it does not. */
  function Applied(c: Config, writes: seq<Write>): (r: Config)
    ensures r.Keys == c.Keys
    ensures Copied(c, writes).Some? ==> r == Copied(c, writes).value
  {
    if writes == [] || writes[0].section !in c then c
    else Applied(Set(c, writes[0].section, writes[0].key, writes[0].value), writes[1..])
  }

  /** A copy-back that fails at write `n` keeps exactly the writes before it:
    * those succeed on their own, and the settings are what they leave. */
  lemma {:induction false} AppliedUpToMissing(c: Config, writes: seq<Write>, n: nat)
    requires n < |writes| && writes[n].section !in c
    requires forall i :: 0 <= i < n ==> writes[i].section in c
    ensures Copied(c, writes).None?
    ensures Copied(c, writes[..n]).Some? && Applied(c, writes) == Copied(c, writes[..n]).value
    decreases n
  {
    if n > 0 {
      var w := writes[0];
      var c1 := Set(c, w.section, w.key, w.value);
      assert writes[1..][n - 1] == writes[n];
      assert forall i :: 0 <= i < n - 1 ==> writes[1..][i] == writes[i + 1];
      AppliedUpToMissing(c1, writes[1..], n - 1);
      assert writes[..n][1..] == writes[1..][..n - 1];
    }
  }

  /** The value the last write to (s, k) in `writes` left, starting from `before`. */
  function LastWrite(writes: seq<Write>, s: string, k: string, before: Option<Value>): Option<Value>
  {
    if writes == [] then before
    else LastWrite(writes[1..], s, k, if writes[0].section == s && writes[0].key == k then Some(writes[0].value) else before)
  }

  class Manager {
    var config: Config

    /** `__init__` via `carregar_configuracoes`. */
    constructor (f: FileRead)
      ensures config == Loaded(f)
    {
      if f.Parsed? {
        config := f.config;
      } else {
        config := Defaults();
      }
    }

    method Lookup(section: string, key: string) returns (r: Option<Value>)
      ensures r == Get(config, section, key)
    {
      if section in config && key in config[section] {
        r := Some(config[section][key]);
      } else {
        r := None;
      }
    }

    /** `definir_config`: writes in memory, then reports what saving the
      * file (`saved`) reported. */
    method Define(section: string, key: string, v: Value, saved: bool) returns (ok: bool)
      modifies this`config
      ensures config == Set(old(config), section, key, v) && ok == saved
    {
      if section !in config {
        config := config[section := map[]];
      }
      config := config[section := config[section][key := v]];
      ok := saved;
    }

    /** `salvar_e_fechar`: writes each form field into its own section and
      * key, stopping at the first missing section. */
    method SaveForm(writes: seq<Write>) returns (ok: bool)
      modifies this`config
      ensures var r := Copied(old(config), writes);
        ok == r.Some? && (ok ==> config == r.value)
      ensures config == Applied(old(config), writes)
    {
      ghost var target := Copied(config, writes);
      ghost var kept := Applied(config, writes);
      for i := 0 to |writes|
        invariant Copied(config, writes[i..]) == target
        invariant Applied(config, writes[i..]) == kept
      {
        assert writes[i..][1..] == writes[i + 1..];
        var w := writes[i];
        if w.section !in config {
          return false;
        }
        config := config[w.section := config[w.section][w.key := w.value]];
      }
      ok := true;
    }
  }
}
