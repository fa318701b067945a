/** `query_data.table_database`: the display name of each GFAS variable and its field,
    table and unit. */
module Variables {
  import opened Outcomes
  import opened Text
  import opened Cluster
  import opened Reader

  /** The field, the table holding its records and the unit of its values. */
  datatype Variable = Variable(field: string, table: string, unit: string)

  /** `gfas_<field>_data`: every table of the catalogue is named after its field. */
  function TableOf(field: string): string
  {
    "gfas_" + field + "_data"
  }

  const TableDatabase: map<string, Variable> := map[
    "Wildfire flux of Carbon Dioxide" := Variable("co2fire", TableOf("co2fire"), "kg/day"),
    "Wildfire flux of Carbon Monoxide" := Variable("cofire", TableOf("cofire"), "kg/day"),
    "Wildfire flux of Methane" := Variable("ch4fire", TableOf("ch4fire"), "kg/day"),
    "Wildfire flux of Nitrogen Oxides NOx" := Variable("noxfire", TableOf("noxfire"), "kg/day"),
    "Wildfire flux of Particulate Matter PM2.5" := Variable("pm2p5fire", TableOf("pm2p5fire"), "kg/day"),
    "Wildfire flux of Total Particulate Matter" := Variable("tpmfire", TableOf("tpmfire"), "kg/day"),
    "Wildfire flux of Total Carbon in Aerosols" := Variable("tcfire", TableOf("tcfire"), "kg/day"),
    "Wildfire flux of Organic Carbon" := Variable("ocfire", TableOf("ocfire"), "kg/day"),
    "Wildfire flux of Black Carbon" := Variable("bcfire", TableOf("bcfire"), "kg/day"),
    "Wildfire overall flux of burnt Carbon" := Variable("cfire", TableOf("cfire"), "kg/day"),
    "Wildfire radiative power" := Variable("frpfire", TableOf("frpfire"), "W"),
    "Wildfire Flux of Ammonia (NH3)" := Variable("nh3fire", TableOf("nh3fire"), "kg/day")
  ]

  /** `self.table_database[name]`. */
  function Lookup(name: string): (r: Result<Variable>)
    ensures r.Ok? <==> name in TableDatabase
    ensures r.Err? ==> r.error == KeyError(name)
    ensures r.Ok? ==> r.value == TableDatabase[name]
  {
    if name in TableDatabase then Ok(TableDatabase[name]) else Err(KeyError(name))
  }

  /** A field name as the tables use it: lower-case letters and digits, no `_`, not
      starting with `d`. */
  predicate PlainField(f: string)
  {
    |f| > 0 && Lacks(f, '_') && f[0] != 'd'
  }

  /** The value column `extract_data_polygon` names after a table of the form
      `gfas_<field>_data` is `gfas_<field>`. */
  lemma FieldVariableName(f: string)
    requires PlainField(f)
    ensures VariableName("gfas_" + f + "_data") == "gfas_" + f
  {
    var a, pat := "gfas_" + f, "_data";
    var s := a + pat + "";
    forall j: nat | j < |a| ensures !OccursAt(s, pat, j) {
      if j == 4 {
        assert s[j + 1] == f[0];
        assert s[j..j + |pat|][1] == s[j + 1];
      } else if j < 4 {
        assert s[j] == "gfas"[j];
        assert s[j..j + |pat|][0] == s[j];
      } else {
        assert s[j] == f[j - 5];
        if j + |pat| <= |s| {
          assert s[j..j + |pat|][0] == s[j];
        }
      }
    }
    ReplaceAllFirst(a, pat, "");
    assert s == "gfas_" + f + "_data";
  }

  /** `'geom' in col` is false for `gfas_<field>` when the field holds no `g`. */
  lemma FieldLacksGeom(f: string)
    requires Lacks(f, 'g')
    ensures !HasGeom("gfas_" + f)
  {
    var s := "gfas_" + f;
    forall j | 0 <= j <= |s| - 4 ensures !GeomAt(s, j) {
      if j == 0 {
        assert s[j..j + 4][1] == s[1] == 'f';
      } else if j < 5 {
        assert s[j..j + 4][0] == s[j] == "gfas_"[j];
      } else {
        assert s[j..j + 4][0] == s[j] == f[j - 5];
      }
    }
  }

  /** A catalogue row of the shape `extract_data_polygon` relies on: its table is
      `gfas_<field>_data`, so the value column it reads is `gfas_<field>`, and that name
      holds no `geom`, so the aggregated columns are kept. */
  predicate TableShaped(v: Variable)
  {
    PlainField(v.field) && v.table == "gfas_" + v.field + "_data"
    && VariableName(v.table) == "gfas_" + v.field && !HasGeom(VariableName(v.table))
  }

  /** A plain field without `g` gives a table-shaped row. */
  lemma RowShaped(v: Variable)
    requires PlainField(v.field) && Lacks(v.field, 'g') && v.table == TableOf(v.field)
    ensures TableShaped(v)
  {
    FieldVariableName(v.field);
    FieldLacksGeom(v.field);
  }

  /** Every catalogue row is table-shaped. */
  lemma CatalogueTables()
    ensures forall n | n in TableDatabase :: TableShaped(TableDatabase[n])
  {
    CatalogueNamed();
    CatalogueFieldsPlain();
    CatalogueFieldsLackG();
    forall n | n in TableDatabase ensures TableShaped(TableDatabase[n]) {
      RowShaped(TableDatabase[n]);
    }
  }

  lemma CatalogueNamed()
    ensures forall n | n in TableDatabase :: TableDatabase[n].table == TableOf(TableDatabase[n].field)
  {
  }

  lemma CatalogueFieldsPlain()
    ensures forall n | n in TableDatabase :: PlainField(TableDatabase[n].field)
  {
  }

  lemma CatalogueFieldsLackG()
    ensures forall n | n in TableDatabase :: Lacks(TableDatabase[n].field, 'g')
  {
  }
}
