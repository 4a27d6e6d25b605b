/** The cell serialiser `getHtml` (ux/grid/Printer.js:397-419; the grouped
    body template carries an identical copy at lines 583-605). */
module CellHtml {
  import opened Wrappers

  /** The rendering metadata a renderer may adjust.  An unset property reads
      as the empty string, which is falsy, as in the source. */
  datatype Meta = Meta(
    tdCls: string,
    css: string,
    tdAttr: string,
    innerCls: string,
    align: string,
    style: string,
    unselectableAttr: string)

  /** The metadata `renderColumn` hands to a renderer for a column with the
      given alignment (lines 163-177 and 564-578). */
  function ColumnMeta(align: string): (m: Meta)
    ensures m.align == align && m.unselectableAttr == "unselectable=\"on\""
    ensures m.tdCls == "" && m.css == "" && m.tdAttr == "" && m.innerCls == "" && m.style == ""
  {
    Meta("", "", "", "", align, "", "unselectable=\"on\"")
  }

  /** The text placed in the cell: an `undefined` value prints as `&nbsp;`. */
  function CellText(value: Option<string>): (text: string)
    ensures value.None? ==> text == "&nbsp;"
    ensures value.Some? ==> text == value.value
  {
    value.GetOr("&nbsp;")
  }

  /** The classes of the `<td>`: `tdCls` and `css`, space-separated. */
  function TdClasses(meta: Meta): (classes: string)
    ensures classes == "" <==> meta.tdCls == "" && meta.css == ""
    ensures meta.tdCls != "" && meta.css != "" ==> classes == meta.tdCls + " " + meta.css
    ensures meta.tdCls == "" ==> classes == meta.css
    ensures meta.css == "" ==> classes == meta.tdCls
  {
    if meta.tdCls == "" then meta.css
    else if meta.css == "" then meta.tdCls
    else meta.tdCls + " " + meta.css
  }

  /** `s` if the condition holds, nothing otherwise: an optional piece of
      markup. */
  function When(b: bool, s: string): string { if b then s else "" }

  // The pieces `getHtml` appends, one per template literal of the source.

  function ClassAttr(meta: Meta): string
  {
    When(TdClasses(meta) != "", "class=\"" + TdClasses(meta) + "\"")
  }

  function TdAttrPart(meta: Meta): string { When(meta.tdAttr != "", " " + meta.tdAttr) }

  function InnerClsAttr(meta: Meta): string
  {
    When(meta.innerCls != "", "class=\"" + meta.innerCls + "\"")
  }

  function AlignDecl(meta: Meta): string { " style=\"text-align: " + meta.align + ";" }

  function StylePart(meta: Meta): string { When(meta.style != "", meta.style) }

  function UnselectablePart(meta: Meta): string
  {
    When(meta.unselectableAttr != "", meta.unselectableAttr)
  }

  function Closing(value: Option<string>): string { ">" + CellText(value) + "</div></td>" }

  /** The markup of one cell, piece by piece from the left. */
  function Markup(value: Option<string>, meta: Meta): string
  {
    "<td " + ClassAttr(meta) + TdAttrPart(meta)
    + "><div " + InnerClsAttr(meta) + AlignDecl(meta) + StylePart(meta)
    + "\" " + UnselectablePart(meta)
    + Closing(value)
  }

  /** `getHtml`, appending to `html` step by step as the source does. */
  method GetHtml(value: Option<string>, meta: Meta) returns (html: string)
    ensures html == Markup(value, meta)
  {
    var text := if value == None then "&nbsp;" else value.value;
    assert text == CellText(value);
    html := "<td ";
    var tdClasses := "";
    if meta.tdCls != "" {
      tdClasses := meta.tdCls;
    }
    if meta.css != "" {
      if |tdClasses| > 0 {
        tdClasses := tdClasses + " " + meta.css;
      } else {
        tdClasses := meta.css;
      }
    }
    if |tdClasses| > 0 {
      html := html + ("class=\"" + tdClasses + "\"");
    }
    assert html == "<td " + ClassAttr(meta);
    if meta.tdAttr != "" {
      html := html + (" " + meta.tdAttr);
    }
    assert html == "<td " + ClassAttr(meta) + TdAttrPart(meta);
    html := html + "><div ";
    if meta.innerCls != "" {
      html := html + ("class=\"" + meta.innerCls + "\"");
    }
    assert html == "<td " + ClassAttr(meta) + TdAttrPart(meta) + "><div " + InnerClsAttr(meta);
    html := html + (" style=\"text-align: " + meta.align + ";");
    if meta.style != "" {
      html := html + meta.style;
    }
    assert html == BeforeAlign(meta) + AlignDecl(meta) + StylePart(meta);
    html := html + "\" ";
    if meta.unselectableAttr != "" {
      html := html + meta.unselectableAttr;
    }
    assert html == BeforeAlign(meta) + AlignDecl(meta) + StylePart(meta) + "\" " + UnselectablePart(meta);
    html := html + (">" + text + "</div></td>");
  }

  predicate IsPrefix(p: string, s: string) { |p| <= |s| && s[..|p|] == p }
  predicate IsSuffix(p: string, s: string) { |p| <= |s| && s[|s| - |p|..] == p }

  /** `sub` occurs in `s`, with `before` in front of it. */
  predicate OccursAfter(before: string, sub: string, s: string)
  {
    IsPrefix(before + sub, s)
  }

  lemma AppendAssoc(a: string, b: string, c: string)
    ensures a + b + c == a + (b + c)
  {
  }

  /** The markup splits into the opening `<td` (up to and including
      `"<td " + ClassAttr(meta)`), the rest of the opening tags, the alignment
      declaration and the closing piece. */
  function BeforeAlign(meta: Meta): string
  {
    "<td " + ClassAttr(meta) + TdAttrPart(meta) + "><div " + InnerClsAttr(meta)
  }

  function AfterAlign(value: Option<string>, meta: Meta): string
  {
    StylePart(meta) + "\" " + UnselectablePart(meta) + Closing(value)
  }

  lemma MarkupSplit(value: Option<string>, meta: Meta)
    ensures Markup(value, meta) == BeforeAlign(meta) + AlignDecl(meta) + AfterAlign(value, meta)
  {
  }

  /** The markup with `<td ` split off. */
  lemma MarkupSplitOpen(value: Option<string>, meta: Meta)
    ensures Markup(value, meta) == "<td " + (ClassAttr(meta) + TdAttrPart(meta) + "><div " + InnerClsAttr(meta)
      + AlignDecl(meta) + AfterAlign(value, meta))
  {
    MarkupSplit(value, meta);
    var a, r := AlignDecl(meta), AfterAlign(value, meta);
    var x := ClassAttr(meta) + TdAttrPart(meta) + "><div " + InnerClsAttr(meta);
    assert BeforeAlign(meta) == "<td " + x by {
      AppendAssoc("<td ", ClassAttr(meta), TdAttrPart(meta));
      AppendAssoc("<td ", ClassAttr(meta) + TdAttrPart(meta), "><div ");
      AppendAssoc("<td ", ClassAttr(meta) + TdAttrPart(meta) + "><div ", InnerClsAttr(meta));
    }
    AppendAssoc("<td ", x, a);
    AppendAssoc("<td ", x + a, r);
  }

  /** The cell is a `<td` element. */
  lemma MarkupOpensTd(value: Option<string>, meta: Meta)
    ensures IsPrefix("<td ", Markup(value, meta))
  {
  }

  /** The value stands verbatim between the last `>` of the opening
      `<div ...>` and `</div></td>` (an `undefined` value as `&nbsp;`, by
      `CellText`). */
  lemma MarkupClosesWithValue(value: Option<string>, meta: Meta)
    ensures IsSuffix(">" + CellText(value) + "</div></td>", Markup(value, meta))
  {
  }

  /** On abstract pieces: after `<td `, a class attribute or else a piece
      that starts with a space or `>`. */
  lemma ClassAttrAtFour(classAttr: string, rest: string, classes: string)
    requires classAttr == "" || classAttr == "class=\"" + classes + "\""
    requires classAttr == "" ==> |rest| > 0 && (rest[0] == ' ' || rest[0] == '>')
    ensures IsPrefix("<td class=\"", "<td " + (classAttr + rest)) <==> classAttr != ""
    ensures classAttr != "" ==> IsPrefix("<td " + classAttr, "<td " + (classAttr + rest))
  {
    var m := "<td " + (classAttr + rest);
    if classAttr != "" {
      assert m == ("<td " + classAttr) + rest;
      assert m[..|"<td " + classAttr|] == "<td " + classAttr;
      assert m[..11] == ("<td " + classAttr)[..11];
    } else {
      assert m[4] == rest[0];
      assert "<td class=\""[4] == 'c';
    }
  }

  /** The first character after the class attribute: `tdAttr` is written
      with a leading space, and without it the tag closes with `>`. */
  lemma AfterClassAttr(value: Option<string>, meta: Meta)
    ensures var rest := TdAttrPart(meta) + "><div " + InnerClsAttr(meta) + AlignDecl(meta) + AfterAlign(value, meta);
      |rest| > 0 && (rest[0] == ' ' || rest[0] == '>')
  {
  }

  /** A `class` attribute follows `<td ` exactly when `tdCls` or `css` is
      set, and it then carries `TdClasses`. */
  lemma MarkupClassAttribute(value: Option<string>, meta: Meta)
    ensures IsPrefix("<td class=\"", Markup(value, meta)) <==> meta.tdCls != "" || meta.css != ""
    ensures meta.tdCls != "" || meta.css != "" ==>
      IsPrefix("<td class=\"" + TdClasses(meta) + "\"", Markup(value, meta))
  {
    MarkupSplitOpen(value, meta);
    var rest := TdAttrPart(meta) + "><div " + InnerClsAttr(meta) + AlignDecl(meta) + AfterAlign(value, meta);
    AppendAssoc(ClassAttr(meta), TdAttrPart(meta), "><div ");
    AppendAssoc(ClassAttr(meta), TdAttrPart(meta) + "><div ", InnerClsAttr(meta));
    AppendAssoc(ClassAttr(meta), TdAttrPart(meta) + "><div " + InnerClsAttr(meta), AlignDecl(meta));
    AppendAssoc(ClassAttr(meta), TdAttrPart(meta) + "><div " + InnerClsAttr(meta) + AlignDecl(meta), AfterAlign(value, meta));
    assert Markup(value, meta) == "<td " + (ClassAttr(meta) + rest);
    AfterClassAttr(value, meta);
    ClassAttrAtFour(ClassAttr(meta), rest, TdClasses(meta));
    if TdClasses(meta) != "" {
      assert "<td " + ClassAttr(meta) == "<td class=\"" + TdClasses(meta) + "\"";
    }
  }

  /** The alignment always appears, right after ` style="text-align: `. */
  lemma MarkupAlignment(value: Option<string>, meta: Meta)
    ensures OccursAfter(BeforeAlign(meta), " style=\"text-align: " + meta.align, Markup(value, meta))
  {
  }

  /** With none of the optional properties but `unselectableAttr` set, the
      cell carries only the fixed pieces, the alignment, that attribute and the
      value: no empty `class=""` and no stray space. */
  lemma MarkupBare(value: Option<string>, meta: Meta)
    requires meta.tdCls == "" && meta.css == "" && meta.tdAttr == "" && meta.innerCls == "" && meta.style == ""
    ensures Markup(value, meta) ==
      "<td " + "><div " + " style=\"text-align: " + meta.align + ";" + "\" " + meta.unselectableAttr
      + ">" + CellText(value) + "</div></td>"
  {
  }

  /** The cell `renderColumn` produces when the renderer leaves its metadata
      alone (lines 163-177, 208). */
  lemma MarkupColumnDefault(value: Option<string>, align: string)
    ensures Markup(value, ColumnMeta(align)) ==
      "<td " + "><div " + " style=\"text-align: " + align + ";" + "\" " + "unselectable=\"on\""
      + ">" + CellText(value) + "</div></td>"
  {
    MarkupBare(value, ColumnMeta(align));
  }

  /** Each optional property adds to the cell only when it is set, and then
      exactly its own text and its fixed wrapping: `class="..."` around the
      classes and around `innerCls`, one leading space before `tdAttr`. */
  lemma MarkupLength(value: Option<string>, meta: Meta)
    ensures |Markup(value, meta)| ==
      |"<td ><div  style=\"text-align: ;\" ></div></td>"| + |meta.align| + |CellText(value)|
      + (if meta.tdCls == "" && meta.css == "" then 0 else 8 + |TdClasses(meta)|)
      + (if meta.tdAttr == "" then 0 else 1 + |meta.tdAttr|)
      + (if meta.innerCls == "" then 0 else 8 + |meta.innerCls|)
      + |meta.style| + |meta.unselectableAttr|
  {
  }

  /** An `undefined` value and the literal text `&nbsp;` print alike. */
  lemma MarkupUndefinedIsNbsp(meta: Meta)
    ensures Markup(None, meta) == Markup(Some("&nbsp;"), meta)
  {
  }
}
