/** The constant lookup tables of the client (constants.ts). */
module Constants {
  import opened Types

  /** Per-mode configuration: whether the mode needs a second source image. */
  datatype ModeSettings = ModeSettings(requiresTwoImages: bool)

  /** The modes whose prompt combines two people or two photos. */
  const TwoImageModes: set<AppMode> := {HugPastSelf, CoupleKiss, StandingTogether}

  /**
   * MODE_CONFIG: every mode has an entry, and exactly the hug, kiss and
   * standing-together modes require two images.
   */
  function ModeConfig(): (table: map<AppMode, ModeSettings>)
    ensures forall m :: m in table
    ensures forall m :: table[m].requiresTwoImages <==> m in TwoImageModes
  {
    AllModesListed();
    var table := map[
      HugPastSelf := ModeSettings(true),
      CoupleKiss := ModeSettings(true),
      StandingTogether := ModeSettings(true),
      ZooBackground := ModeSettings(false),
      SmoothFace := ModeSettings(false),
      CustomText := ModeSettings(false)
    ];
    assert table.Keys == AllModes;
    table
  }

  /** A label set that names every mode with a non-empty label. */
  predicate LabelsEveryMode(t: Translation) {
    t.modes.Keys == AllModes && forall m :: m in t.modes ==> t.modes[m] != ""
  }

  /** The English label set. */
  function EnglishLabels(): (t: Translation)
    ensures LabelsEveryMode(t)
  {
    Translation(
      "Fusion AI",
      "Upload Images",
      "First Image (Adult/Man/Main)",
      "Second Image (Child/Woman/Secondary)",
      "Merge / Generate",
      "Download Image",
      "Processing with AI...",
      "Select Effect",
      map[
        HugPastSelf := "Hug My Past Self",
        CoupleKiss := "Couple Kissing",
        StandingTogether := "Standing Together",
        ZooBackground := "Zoo Background",
        SmoothFace := "Face Retouching",
        CustomText := "Custom Text Edit"
      ],
      "Designed by Haitham Al-Nuaimi",
      "Describe how you want to change the image...")
  }

  /** The Arabic label set. */
  function ArabicLabels(): (t: Translation)
    ensures LabelsEveryMode(t)
  {
    Translation(
      "الذكاء الاصطناعي للدمج",
      "رفع الصور",
      "الصورة الأولى (الكبير/الشاب/الرئيسية)",
      "الصورة الثانية (الصغير/الفتاة/الثانوية)",
      "دمج / إنشاء",
      "تحميل الصورة",
      "جارٍ المعالجة بالذكاء الاصطناعي...",
      "اختر التأثير",
      map[
        HugPastSelf := "دمج الكبير يحضن الصغير",
        CoupleKiss := "دمج قبلة (شاب وفتاة)",
        StandingTogether := "دمج وقوف معاً",
        ZooBackground := "خلفية حديقة حيوانات",
        SmoothFace := "تصفية الوجه",
        CustomText := "تعديل عبر النص"
      ],
      "تصميم هيثم النعيمي",
      "اكتب وصفاً للتعديل الذي تريده...")
  }

  /** The Farsi label set. */
  function FarsiLabels(): (t: Translation)
    ensures LabelsEveryMode(t)
  {
    Translation(
      "هوش مصنوعی فیوژن",
      "بارگذاری تصاویر",
      "تصویر اول (بزرگسال/مرد/اصلی)",
      "تصویر دوم (کودک/زن/ثانویه)",
      "ادغام / تولید",
      "دانلود تصویر",
      "در حال پردازش با هوش مصنوعی...",
      "انتخاب حالت",
      map[
        HugPastSelf := "آغوش با کودکی",
        CoupleKiss := "بوسه زوجین",
        StandingTogether := "ایستاده کنار هم",
        ZooBackground := "پس‌زمینه باغ وحش",
        SmoothFace := "رتوش صورت",
        CustomText := "ویرایش متنی"
      ],
      "طراحی توسط هیثم النعیمی",
      "توضیح دهید چه تغییری می‌خواهید...")
  }

  /**
   * TRANSLATIONS: every language has a label set, and every label set names
   * every mode, so looking up the label of the selected mode never fails.
   */
  function Translations(): (table: map<Language, Translation>)
    ensures forall l :: l in table
    ensures forall l, m :: m in table[l].modes && table[l].modes[m] != ""
  {
    AllModesListed();
    AllLanguagesListed();
    var table := map[En := EnglishLabels(), Ar := ArabicLabels(), Fa := FarsiLabels()];
    assert table.Keys == AllLanguages;
    table
  }
}
