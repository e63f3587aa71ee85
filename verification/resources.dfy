/**
 Linking an API class to its resource class by name: the controller name, the
 module prefix, and the keys used to find related resources and controllers.
 `apiClass` is the Ruby class name of the API subclass, e.g. `"Api::V1::People"`.
 */
module Resources {
  import opened Wrappers
  import opened RubyText
  import opened JsonApi

  /** `controller_name`: the class name with every "::" turned into "/". */
  function ControllerName(apiClass: string): string {
    ReplaceSep(apiClass)
  }

  /** `resource_module_name`: all namespace segments but the last, joined with "/". */
  function ResourceModuleName(apiClass: string): string {
    var fields := RubySplit(apiClass);
    if |fields| == 0 then "" else Join(fields[..|fields| - 1], "/")
  }

  /** `resource_class`: the registered resource for the controller name. */
  function ResourceClassFor(reg: Registry, apiClass: string): Result<ResourceClass, LookupError> {
    ResourceFor(reg, ControllerName(apiClass))
  }

  /** `resource_name`. */
  function ResourceName(infl: Inflector, apiClass: string, resourceClassName: string): string {
    ResourceModuleName(apiClass) + "/" + infl.underscore(resourceClassName)
  }

  /** The key `related_resource_for` looks the target of a relationship up by. */
  function RelatedResourceKey(infl: Inflector, apiClass: string, rel: Relationship): string {
    infl.underscore(ResourceModuleName(apiClass) + "/" + rel.className)
  }

  /** `related_resource_for`. */
  function RelatedResourceFor(reg: Registry, infl: Inflector, apiClass: string, rel: Relationship)
    : Result<ResourceClass, LookupError>
  {
    ResourceFor(reg, RelatedResourceKey(infl, apiClass, rel))
  }

  /** `related_controller_name`. */
  function RelatedControllerName(apiClass: string, target: ResourceClass): string {
    ResourceModuleName(apiClass) + "/" + target.typeName
  }

  // ---------------------------------------------------------------------
  // Properties of the derived names for a well-formed class name
  // ---------------------------------------------------------------------

  /** The controller name of `A::B::C` is `A/B/C`, and it never contains "::". */
  lemma ControllerNameOfQualified(segs: seq<string>)
    requires ValidSegments(segs)
    ensures ControllerName(QualifiedName(segs)) == Join(segs, "/")
    ensures forall i :: 0 <= i < |ControllerName(QualifiedName(segs))| - 1 ==>
      !SepAt(ControllerName(QualifiedName(segs)), i)
  {
    ReplaceSepOfQualified(segs);
  }

  /** The module name of `A::B::C` is `A/B`; of a top-level class it is empty. */
  lemma ModuleNameOfQualified(segs: seq<string>)
    requires ValidSegments(segs)
    ensures ResourceModuleName(QualifiedName(segs)) == Join(segs[..|segs| - 1], "/")
    ensures |segs| == 1 ==> ResourceModuleName(QualifiedName(segs)) == ""
  {
    SplitOfQualified(segs);
  }

  /**
   For a namespaced class, the controller name is the module name, "/", and the
   last segment; so the module name is a proper prefix of the controller name.
   */
  lemma ControllerNameExtendsModuleName(segs: seq<string>)
    requires ValidSegments(segs) && |segs| >= 2
    ensures ControllerName(QualifiedName(segs))
         == ResourceModuleName(QualifiedName(segs)) + "/" + segs[|segs| - 1]
  {
    var init := segs[..|segs| - 1];
    assert init + [segs[|segs| - 1]] == segs;
    ControllerNameOfQualified(segs);
    ModuleNameOfQualified(segs);
    JoinSnoc(init, segs[|segs| - 1], "/");
  }

  /** A top-level class is its own controller name and has an empty module name. */
  lemma TopLevelNames(seg: string)
    requires ValidSegments([seg])
    ensures ControllerName(seg) == seg
    ensures ResourceModuleName(seg) == ""
  {
    assert QualifiedName([seg]) == seg;
    ControllerNameOfQualified([seg]);
    ModuleNameOfQualified([seg]);
  }

  /**
   Related controller and resource names always carry a "/" after the module
   name, so for a top-level class they start with "/".
   */
  lemma RelatedNamesOfQualified(infl: Inflector, segs: seq<string>, target: ResourceClass, resourceClassName: string)
    requires ValidSegments(segs)
    ensures RelatedControllerName(QualifiedName(segs), target)
         == Join(segs[..|segs| - 1], "/") + "/" + target.typeName
    ensures ResourceName(infl, QualifiedName(segs), resourceClassName)
         == Join(segs[..|segs| - 1], "/") + "/" + infl.underscore(resourceClassName)
    ensures |segs| == 1 ==> RelatedControllerName(QualifiedName(segs), target) == "/" + target.typeName
  {
    ModuleNameOfQualified(segs);
  }

  /** The related-resource key is the underscored `module/ClassName`. */
  lemma RelatedResourceKeyOfQualified(infl: Inflector, segs: seq<string>, rel: Relationship)
    requires ValidSegments(segs)
    ensures RelatedResourceKey(infl, QualifiedName(segs), rel)
         == infl.underscore(Join(segs[..|segs| - 1], "/") + "/" + rel.className)
  {
    ModuleNameOfQualified(segs);
  }
}
